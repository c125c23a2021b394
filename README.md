# EMS Lite — a Dafny model of the record store, the page state machines and the request paths

EMS Lite is a small HR administration application: a FastAPI backend over two
MySQL tables (`employees`, `attendance`) and a React client with three pages
(Dashboard, Employees, Attendance). This project models:

- **The backend record store** (`backend.dfy`, module `Backend`). It holds the
  field validators `not_empty` and `validate_status`, and the class `Database`
  whose two sequence fields are the tables. Its handlers are
  `CreateEmployee`, `DeleteEmployee` (cascading) and `MarkAttendance` (upsert
  on employee and date), with the read-only `AllAttendance` (the join) and
  `GetStats` (the counts). `Database.Valid()` says that employee ids, employee
  e-mails and attendance keys are unique, and every handler keeps it.
- **The page state machines** (`dashboard.dfy`, `attendance.dfy`,
  `employees.dfy`). Each page is a class whose fields are the page's `useState`
  slots. Each handler is a method that takes the outcome of every API call it
  awaits (`Api.Outcome`: data, or a failure with an optional server `detail`).
  It returns the requests it issued, in order. An async handler is split at its
  first `await`: `BeginFetch`/`BeginLoad` is the part that runs at once, and
  `CompleteFetch` is the part that runs when the call settles. A refetch
  that a submit or delete handler starts without awaiting has run only its
  first part when the handler returns. A `View` function says what the page
  renders for a given state. A page's error slot holds what the handler
  stored: a message, or the list of field errors that FastAPI sends as
  `detail` with a 422. React cannot render that list, so the view then fails.
  `Api.RefusedBodyIsUnrenderable` states this for every body the server's
  validation refuses. `Employees.BlankNameScenario` follows one such case
  through both halves. The form is filled in with a full name of spaces, and
  the body it posts goes to the backend model, which refuses it with a 422.
  The page then stores the list and cannot render it.
- **The request paths** (`api.dfy`, module `Api`). This covers the base-URL
  fallback, the path and body each exported call sends, and the inverse
  direction: reading the route parameter and the query back from a built path.

Shared pieces: `wrappers.dfy` (`Option`, `Result`), `seqs.dfy` (filter,
subsequence, distinct keys, `slice(0, n)`), `records.dfy` (the row types).

The SQL statements are given their standard meaning over the sequences.
"Today" is a parameter: `CURDATE()` on the server and
`new Date().toISOString()` in the Attendance form.

Two behaviours of the code that the model keeps as written:

- The dashboard loader awaits its three calls one after another. It stops at
  the first failure, so later calls are never made and their slots keep their
  old values. A failure replaces the whole dashboard with the error message.
  The loader does not settle all three calls and show partial results.
- Create, delete and mark return `{"message": ...}` with status 200. They do
  not return the created entity, and delete does not return 204.

## Model

| member | source | states |
|---|---|---|
| `Backend.Strip` | Backend/app.py:79-81 | Python's `str.strip()` with whitespace as Python's `isspace` set: the result is empty exactly when the input is all whitespace, and otherwise neither starts nor ends with whitespace |
| `Backend.StripKeepsMiddle` | Backend/app.py:81 | the stripped value is a contiguous piece of the input, and what lies before and after it is all whitespace |
| `Backend.StripIdempotent` | Backend/app.py:81 | stripping a stripped value changes nothing |
| `Backend.NotEmpty` | Backend/app.py:76-81 | `not_empty` refuses exactly the empty and all-whitespace values with "Field cannot be empty"; otherwise returns the stripped, non-empty value |
| `Backend.ValidateStatus` | Backend/app.py:88-93 | accepts exactly "Present" and "Absent" (returned unchanged); every other string is refused with "Status must be Present or Absent" |
| `Backend.BlankFields` | Backend/app.py:76-80 | every entry is "Field cannot be empty" for a blank field among employee_id, full_name and department; every such blank field has an entry; entries follow field order, so no field appears twice; the list is empty exactly when none of the three is blank |
| `Backend.ValidateEmployee` | Backend/app.py:70-81 | the body is accepted iff none of the three validated fields is blank; the accepted employee has those fields stripped and the e-mail untouched; a refused body lists exactly the blank fields |
| `Backend.Database.CreateEmployee` | Backend/app.py:112-141 | 422 with the field errors for an invalid body; else 400 "Employee ID already exists" when the id is taken (checked first, so it wins over an e-mail clash); else 400 "Email already exists"; else exactly one employee appended. Tables are unchanged on every error, attendance is never touched, and unique ids and e-mails are preserved |
| `Backend.DeleteRowsOf` | Backend/app.py:156 | deleting an employee's attendance rows leaves no row of that employee, keeps every other row in order, adds nothing, keeps (employee_id, date) unique, and changes nothing when the employee has no rows |
| `Backend.DeleteEmployeeRow` | Backend/app.py:157 | deleting an employee leaves no employee with that id, keeps every other employee in order, adds nothing, keeps ids and e-mails unique, and changes nothing for an unknown id |
| `Backend.Database.DeleteEmployee` | Backend/app.py:152-160 | always "Employee deleted". Afterwards no attendance row and no employee has the id; every other row and employee is kept, in order (subsequence), and nothing new appears. An unknown id leaves `employees` unchanged, and with no rows for it `attendance` too; invariant preserved |
| `Backend.Database.MarkAttendance` | Backend/app.py:164-185 | 422 and no change for a status other than Present/Absent; otherwise "Attendance marked" and the attendance table becomes the upsert of the row; employees untouched; at most one row per (employee_id, attendance_date) afterwards |
| `Backend.Upsert` | Backend/app.py:169-181 | `ON DUPLICATE KEY UPDATE`: the new row is present afterwards; without an existing key exactly that row is appended; with one the size is unchanged; every row with another key is kept and no other row appears |
| `Backend.UpsertInPlace` | Backend/app.py:169-181 | with unique keys and an existing row for the key, only that row's status is replaced, in place |
| `Backend.UpsertKeepsKeysUnique` | Backend/app.py:169-181 | the upsert keeps the (employee_id, attendance_date) key unique |
| `Backend.FindEmployee` | Backend/app.py:195 | finds an employee with the id exactly when one exists |
| `Backend.Join` | Backend/app.py:191-197 | no more joined rows than attendance rows; each joined row comes from an attendance row and carries the name and department of an employee with that id |
| `Backend.JoinListsExactly` | Backend/app.py:191-197 | an attendance row appears in the join exactly when its employee exists |
| `Backend.JoinMultiplicity` | Backend/app.py:191-197 | the join returns an attendance row of an existing employee exactly as many times as the table holds it, and a row of a missing employee not at all |
| `Backend.Database.AllAttendance` | Backend/app.py:187-201 | `get_all_attendance` returns only rows whose employee exists, each with that employee's name and department, and each such row exactly as often as the table holds it (once, under the unique key) |
| `Backend.PresentOn` | Backend/app.py:213-216 | the count equals the number of rows dated `today` with status "Present"; it is at most the number of rows, 0 exactly when no row matches and the row count exactly when all do |
| `Backend.Database.GetStats` | Backend/app.py:205-227 | total_employees = number of employees, total_records = number of attendance rows, present_today = number of rows Present on `today`, so at most total_records and 0 exactly when none is |
| `Seqs.Filter` | Backend/app.py:156-157 | the `WHERE` filter and `Array.filter`: keeps exactly the elements satisfying the predicate, never grows |
| `Seqs.FilterIsSubseq` | Frontend/frontend/src/pages/Attendance.jsx:66-68 | filtering keeps the order of what it keeps |
| `Seqs.FilterMultiplicity` | Frontend/frontend/src/pages/Attendance.jsx:66-68 | filtering keeps every copy of a passing element and no copy of a failing one |
| `Seqs.DistinctFilter` | Backend/app.py:156-157 | deleting rows never breaks key uniqueness |
| `Seqs.DistinctAppend` | Backend/app.py:131-137 | inserting a row with a new key keeps keys unique |
| `Seqs.Take` | Frontend/frontend/src/pages/Dashboard.jsx:28-31 | `slice(0, n)`: min(M, n) elements, the first ones in server order |
| `Api.ApiUrl` | Frontend/frontend/src/utils/api.js:3 | the base URL is `VITE_API_URL` when it is set and non-empty, else "http://localhost:8000"; it is never empty |
| `Api.EmployeePath` | Frontend/frontend/src/utils/api.js:14-16 | "/api/employees/" followed by the id verbatim |
| `Api.EmployeePathRoundTrip` | Frontend/frontend/src/utils/api.js:14-16 | `getEmployee` and `deleteEmployee` use the same path. The model's path reader gets the id back as the route parameter exactly when the id is non-empty and free of '/', '?' and '#', since it is not escaped. Such a path has no query |
| `Api.GetEmployeeAttendance` | Frontend/frontend/src/utils/api.js:20-25 | a truthy date gives "/api/attendance/{id}?date={date}", a null or empty one "/api/attendance/{id}" |
| `Api.AttendancePathRoundTrip` | Frontend/frontend/src/utils/api.js:20-25 | for a safe id and a date containing no '#', the id is the route parameter. The query is `date=<date>` exactly when the date is truthy, and there is no query otherwise |
| `Api.FixedPaths` | Frontend/frontend/src/utils/api.js:13-33 | list, create, mark, stats and health use fixed paths whatever their data; the data goes in the body; none of these paths has a query |
| `Api.DetailOr` | Frontend/frontend/src/pages/Attendance.jsx:61 | the page stores the server `detail` when truthy (a non-empty string, or any list), else the fallback message; it stores a list exactly when the server sent one; with a non-empty fallback it never stores `''` |
| `Api.Banner` | Frontend/frontend/src/pages/Employees.jsx:95 | no banner exactly when the slot is `''`; a message shows as itself |
| `Api.OutcomeOf` | Backend/app.py:76-129 | a handler's response as the client sees it. A message is success. An `HTTPException` is a failure with its text `detail`, which is truthy when non-empty. A validation failure is a failure whose `detail` lists one entry per field error, at `["body", field]` with "Value error, " before the message; with at least one error, React cannot render that list |
| `Api.InvalidIsUnrenderable` | Backend/app.py:76-93 | for every validation failure with at least one error, and every fallback, the page stores a list it cannot render |
| `Api.RefusedBodyIsUnrenderable` | Backend/app.py:76-81 | every employee body that `not_empty` refuses leaves the page holding a list it cannot render |
| `Api.RejectedShowsDetail` | Backend/app.py:122 | a rejection with a non-empty message (id or e-mail taken) is stored as that text and shown in the banner instead of the fallback |
| `Dashboard.StatShown` | Frontend/frontend/src/pages/Dashboard.jsx:64-74 | `stats?.field \|\| 0`: 0 exactly when stats or the field is missing or zero, otherwise the field's value |
| `Dashboard.DashboardPage.constructor` | Frontend/frontend/src/pages/Dashboard.jsx:9-13 | initial state: no stats, loading, no error, empty lists |
| `Dashboard.DashboardPage.BeginLoad` | Frontend/frontend/src/pages/Dashboard.jsx:21-22 | before any call: loading true and error cleared, slots untouched |
| `Dashboard.DashboardPage.FetchDashboardData` | Frontend/frontend/src/pages/Dashboard.jsx:19-39 | calls go out in order and each only after the previous succeeded. Stats is set iff its call succeeded. Recent employees are the first min(M,5) only if stats and employees succeeded. Recent attendance is the first min(M,10) only if all three succeeded. Other slots keep their previous values. Error is "Failed to load dashboard data" on any failure, else "". Loading ends false on every path |
| `Dashboard.DashboardPage.View` | Frontend/frontend/src/pages/Dashboard.jsx:41-76 | spinner exactly while loading. The error alone exactly when not loading and the error is non-empty. Otherwise, once loaded with no error, the overview: the stat cards with the `\|\| 0` defaults and the two recent lists |
| `Attendance.FilterByDate` | Frontend/frontend/src/pages/Attendance.jsx:66-68 | an empty filter yields all records; otherwise exactly the records on the filter date; empty exactly when no record has that date |
| `Attendance.FilterByDateExact` | Frontend/frontend/src/pages/Attendance.jsx:66-68 | the filtered list is a subsequence of the records and holds every copy of each record on the date and nothing else |
| `Attendance.AttendancePage.constructor` | Frontend/frontend/src/pages/Attendance.jsx:5-16 | initial state, with the form at employee "", date today, status "Present" |
| `Attendance.AttendancePage.BeginFetch` | Frontend/frontend/src/pages/Attendance.jsx:24-28 | loading set true and both calls issued; nothing else changes |
| `Attendance.AttendancePage.CompleteFetch` | Frontend/frontend/src/pages/Attendance.jsx:25-37 | all-or-nothing: both lists replaced and error cleared when both calls succeeded, otherwise neither list changes and error is "Failed to fetch data"; loading false; form, filter and banners untouched |
| `Attendance.AttendancePage.FetchData` | Frontend/frontend/src/pages/Attendance.jsx:22-38 | the whole `fetchData`: both calls issued, then the all-or-nothing update, loading false on both paths |
| `Attendance.AttendancePage.HandleInputChange` | Frontend/frontend/src/pages/Attendance.jsx:40-45 | only the named form field changes, to the new value; all other state is unchanged |
| `Attendance.AttendancePage.HandleSubmit` | Frontend/frontend/src/pages/Attendance.jsx:47-64 | POSTs the current form. On success it sets the success message, resets the form to "", today and "Present", hides the form and starts a refetch. On failure the error is the server detail or "Failed to mark attendance", and the form and its visibility are kept. Records are unchanged in both cases |
| `Attendance.AttendancePage.ToggleForm` | Frontend/frontend/src/pages/Attendance.jsx:94 | the button flips form visibility |
| `Attendance.AttendancePage.SetFilterDate` | Frontend/frontend/src/pages/Attendance.jsx:155-161 | the filter input and "Clear Filter" only set the filter; records and everything else are untouched, no call is made |
| `Attendance.AttendancePage.ClearSuccess` | Frontend/frontend/src/pages/Attendance.jsx:59 | the success timer clears the success message only |
| `Attendance.AttendancePage.ClearError` | Frontend/frontend/src/pages/Attendance.jsx:62 | the error timer clears the error message only |
| `Attendance.AttendancePage.FilteredRecords` | Frontend/frontend/src/pages/Attendance.jsx:66-68 | the shown records are drawn from `attendanceRecords`, and are all of them with no filter |
| `Attendance.AttendancePage.View` | Frontend/frontend/src/pages/Attendance.jsx:70-203 | spinner exactly while loading. A render failure exactly when not loading and the error slot holds a non-empty list. Otherwise a banner appears for each non-empty message, the form appears when shown, and the empty state appears exactly when the filtered records are empty; else they are the rows |
| `Employees.EmployeesPage.constructor` | Frontend/frontend/src/pages/Employees.jsx:5-15 | initial state, with all four form fields "" |
| `Employees.EmployeesPage.BeginFetch` | Frontend/frontend/src/pages/Employees.jsx:23-24 | loading set true and the list requested; nothing else changes |
| `Employees.EmployeesPage.CompleteFetch` | Frontend/frontend/src/pages/Employees.jsx:24-32 | success replaces the list and clears the error; failure keeps the list and sets "Failed to fetch employees"; loading false either way |
| `Employees.EmployeesPage.FetchEmployees` | Frontend/frontend/src/pages/Employees.jsx:21-33 | the whole `fetchEmployees`: one GET, then the update above |
| `Employees.EmployeesPage.HandleInputChange` | Frontend/frontend/src/pages/Employees.jsx:35-40 | only the named form field changes |
| `Employees.EmployeesPage.HandleSubmit` | Frontend/frontend/src/pages/Employees.jsx:42-60 | POSTs the current form. On success it resets all four fields to "", hides the form, sets "Employee added successfully!" and starts a refetch. On failure the error slot holds the server detail (a 422's list included) or "Failed to add employee", never `''`, and the form is kept |
| `Employees.EmployeesPage.HandleDelete` | Frontend/frontend/src/pages/Employees.jsx:62-76 | without confirmation no request is made and no state changes. Success sets "Employee deleted successfully!" and starts a refetch. Failure sets the server detail or "Failed to delete employee". The list and the form are untouched |
| `Employees.EmployeesPage.ToggleForm` | Frontend/frontend/src/pages/Employees.jsx:103 | the button flips form visibility |
| `Employees.EmployeesPage.ClearSuccess` | Frontend/frontend/src/pages/Employees.jsx:55 | the success timer clears the success message only |
| `Employees.EmployeesPage.ClearError` | Frontend/frontend/src/pages/Employees.jsx:58 | the error timer clears the error message only |
| `Employees.EmployeesPage.View` | Frontend/frontend/src/pages/Employees.jsx:78-202 | spinner exactly while loading; a render failure exactly when not loading and the error slot holds a non-empty list; otherwise banners for non-empty messages, the form when shown, and the empty state exactly when there are no employees |

## Left out

- Database plumbing (`get_db_connection`, `DB_CONFIG`, environment reading, CORS, logging, Backend/app.py:14-66). The model assumes the database is reachable, so the 500 "Database connection failed" path is not modelled.
- The `root`, `health_check` and `get_employees` handlers. They only read; the employees list is the `employees` field.
- The 422 pydantic gives for a missing or non-string field ("Field required", "Input should be a valid string") before `not_empty` runs. Every body in the model has all four fields as strings.
- Browser form validation (`required`, `type="email"`). The model's form accepts any value; a value of spaces passes `required` in the browser too.
- `EmailStr` validation and normalisation. The e-mail is an opaque string compared exactly.
- Parsing of `attendance_date` into a Python `date`. The model keeps dates as `YYYY-MM-DD` text, so a malformed date is not refused with 422.
- The `type`, `input` and `ctx` keys of a 422 entry. `Api.ErrorItem` keeps `loc` and `msg`.
- SQL collation. The table collation is not part of this model; whatever it treats as equal, the model compares ids, e-mails and dates exactly.
- The `ORDER BY created_at DESC` and `ORDER BY attendance_date DESC` sort orders. `created_at` is not modelled, and server order is taken as given.
- The attendance schema. (employee_id, attendance_date) is assumed to be the unique key behind `ON DUPLICATE KEY UPDATE`. No foreign key is assumed, so `MarkAttendance` accepts an id with no employee; such a row is hidden by the join.
- Backend.Join: the join yields one row per matching employee as long as employee ids are unique, which `Database.Valid()` guarantees. Duplicate ids, which SQL would join several times, are not modelled.
- The axios transport, the response envelope (`res.data`) and how axios joins the base URL with a path. A call is its `Api.Request`, and its result is an `Api.Outcome` supplied to the handler.
- Percent-decoding of path segments by the server, in `Api.SegmentAfter`.
- URL normalisation by the browser before sending. It drops `.` and `..` segments and reads a backslash as '/', so an id such as `..` that `Api.SafeSegment` accepts does not reach the server as sent. `Api.EmployeePathRoundTrip` is about the model's own path reader.
- The backend defines no route for GET `/api/employees/{id}` or GET `/api/attendance/{id}`. The model builds those requests and assumes nothing about their answers.
- What happens after a render failure. React unmounts the tree, so the page stays blank until reload. The model's later events, such as the error timer, still act on the slots.
- JSX rendering, CSS, table markup, `console.error`, and `Navbar.jsx` (which only compares the pathname to mark a link active).
- The 3000 ms and 5000 ms timers. Clearing is an explicit `ClearSuccess`/`ClearError` event, so it clears whatever message is current, as the timers do.
- The concurrency of `Promise.all`. Only its all-or-nothing outcome is modelled.
- Concurrency between requests on the server. FastAPI runs these handlers on a thread pool, one connection each. Two creates with the same id or e-mail can both pass the `SELECT` checks before either `INSERT`. The model takes handlers as serialised, so `Database.Valid()` rests on that; without it, only a unique constraint in the schema would keep ids and e-mails unique.
- Other events may run between a refetch's `BeginFetch` and its `CompleteFetch`; the model does not order them.
- React batching and stale closures. Each `HandleInputChange` applies to the latest `formData`.
- JavaScript values other than numbers in the stats body (`NaN`, `false`, strings). A stat field is an optional integer.
- Malformed server data, such as a non-array list, which would throw in `slice` or `map`.
- The clock and locale (`CURDATE()`, `toISOString`, `toLocaleDateString`). "Today" is a parameter, and dates are shown as stored.
