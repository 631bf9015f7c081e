# Payroll management system — a Dafny model

This project models the core of a small payroll system. The system has two Express servers
that offer the same REST API: one over SQLite (`server-sqlite-complete.js`) and one over
MySQL (`server.js`). It also has a React client whose pages derive figures, CSV files and
payslips from what the API returns. The model covers:

- **Payroll generation** (`POST /api/payroll/generate`). It is a single
  `INSERT … SELECT`:
  - it prices every active employee's present and absent days of a month at salary / 30;
  - it writes one row per (employee, month, year).
  - The servers differ in what happens to a row that already exists. SQLite's
    `INSERT OR REPLACE` swaps in a new row, with a new id and status 'pending'. MySQL's
    `ON DUPLICATE KEY UPDATE` overwrites only the four money columns.
- **The database as an in-memory store.** This is a class `Database` whose fields are the
  four tables:
  - employees, in id order;
  - attendance, keyed on (employee, date);
  - leaves, in id order;
  - payroll, keyed on (employee, month, year).
  - Its methods are the routes that change the tables: seeding, employee
    create/update/delete, attendance recording (both variants), leave create/update and
    payroll generation (both variants).
  - It also has the read routes: caller-scoped attendance, leaves and payroll, and reports.
- **The bearer-token and admin gates** in front of the routes.
- **The client's derived logic:**
  - the CSV serialiser, chart and pie data and file name of the reports page;
  - the payroll, attendance, leave and dashboard tallies;
  - the payslip text and file name;
  - the leave approve/reject guard;
  - the login form's validation and redirect;
  - the leave request the employee page posts.

Modules follow the program. `Text`, `Sql`, `Dates` and `Tally` give the JavaScript and SQL
semantics the rest relies on:
- `trim`, `split`, `join`;
- `SUBSTR`, `CAST AS INTEGER`, `BETWEEN` on text;
- `filter().length`, `reduce`.

The other modules group by source file:
- `Schema`, `PayrollEngine`, `Access`, `Routes` and `Store` cover the servers;
- `Api` holds the records the client receives;
- there is one module per client component.

Money is exact `real`. Where the two servers' SQL differs, the model says which server a
member follows.

Where the written description of the system and the code disagree, the model follows the
code:
- Payroll generation does not validate the month and year it is sent. The model generates
  for whatever period it is given.
- The read routes are modelled as `Database` methods that change nothing. Their results are
  defined by pure query functions in `Routes`, whose properties are proved there.

## Model

| member | source | states |
|---|---|---|
| PayrollEngine.Figures | server-sqlite-complete.js:453-459 | basic is the salary; allowances are present days × salary / 30 and deductions absent days × salary / 30; net is basic plus allowances minus deductions; with no present and no absent days the row is (salary, 0, 0, salary); for a positive salary net ≥ salary exactly when present days ≥ absent days |
| PayrollEngine.NoAttendanceMeansBasicPay | server-sqlite-complete.js:457-462 | an employee with no attendance rows in the period gets allowances 0, deductions 0, net = salary |
| PayrollEngine.IrrelevantRowIgnored | server-sqlite-complete.js:457-462 | adding an attendance row that is another employee's, outside the period, or of any status but present/absent leaves the employee's figures unchanged |
| PayrollEngine.DaysUnchangedByOtherRow | server-sqlite-complete.js:457-458 | the per-status day count ignores a row of another status, employee or period |
| PayrollEngine.DialectsAgreeOnFigures | server.js:350-360 | with canonical `YYYY-MM-DD` dates the MySQL `MONTH()/YEAR()` join and the SQLite `SUBSTR` join give every employee the same figures |
| PayrollEngine.ReplaceAllAt | server-sqlite-complete.js:450-465 | after SQLite generation a key of an eligible employee in the period holds a new 'pending' row with that employee's figures and a fresh id; every other existing row is untouched; no other key appears |
| PayrollEngine.UpsertAllAt | server.js:347-366 | after MySQL generation an existing generated row keeps its id and status and gets the new money columns; a new generated key gets a 'pending' row; every other row is untouched |
| PayrollEngine.GeneratesTail | server-sqlite-complete.js:461-464 | which keys generation writes is decided employee by employee in id order |
| PayrollEngine.GenerationKeepsIds | server-sqlite-complete.js:88-101 | both variants keep every payroll id below the autoincrement counter |
| PayrollEngine.EveryEligibleEmployeeHasARow | server-sqlite-complete.js:461-464 | after either variant every active employee with role 'employee' has a row for the period |
| PayrollEngine.ReplaceAllIdempotentMoney | server-sqlite-complete.js:450-465 | running SQLite generation twice on unchanged data gives the same keys, money columns and status |
| PayrollEngine.UpsertAllNoInsert | server.js:362-366 | when every eligible employee already has a row, MySQL generation inserts no row: the table keeps exactly its keys |
| PayrollEngine.UpsertAllIdempotent | server.js:343-377 | running MySQL generation a second time on unchanged data leaves every row (key, id, status, money) as it was |
| PayrollEngine.VariantsDifferOnExistingRow | server.js:362-366 | on an existing row SQLite gives status 'pending' and a new id, MySQL keeps id and status (a 'paid' row stays paid); both write the same money |
| Dates.SqliteFieldsOfCanonical | server-sqlite-complete.js:462 | on a canonical date `SUBSTR(date,6,2)` and `SUBSTR(date,1,4)` cast to the digits' values |
| Dates.DialectsAgreeOnCanonical | server.js:359 | on a canonical date both servers' period tests agree |
| Dates.MysqlFieldsOfCanonical | server.js:359 | MySQL reads a canonical date's year and month from its digit fields |
| Dates.UnpaddedDateCountsUnderBoth | server-sqlite-complete.js:462 | the unpadded date '2024-3-15' counts for March 2024 under SQLite's text slicing and under MySQL's date reading alike |
| Dates.FormatDateInPeriod | client/src/components/employee/MyLeaves.tsx:91-92 | a date formatted `YYYY-MM-DD` is canonical and falls in exactly the month and year it was formatted from |
| Sql.CastIntegerDigits | server-sqlite-complete.js:462 | `CAST(... AS INTEGER)` of a digit string is its decimal value |
| Sql.BetweenSameDay | server-sqlite-complete.js:355 | `date BETWEEN d AND d` on text holds exactly for the date d |
| Access.BearerToken | server-sqlite-complete.js:159-160 | the token is the second space-separated part of the header, present exactly when that part exists and is non-empty |
| Access.Authenticate | server-sqlite-complete.js:158-173 | no token gives 401 'Access token required'; a token that does not verify gives 403 'Invalid or expired token'; otherwise the verified caller passes |
| Access.RequireAdmin | server.js:73-78 | only role 'admin' passes; any other gives 403 'Admin access required' |
| Access.AdminGate | server.js:55-78 | the chained gates pass exactly authenticated admins; an authentication failure keeps its own code |
| Access.BearerHeaderYieldsToken | server.js:56-57 | `Bearer <token>` yields the token, also when a further space-separated part follows |
| Access.HeaderWithoutSpaceIsRejected | server.js:56-61 | a header with no space has no token: 401 |
| Access.EmptyTokenIsRejected | server.js:56-61 | `Bearer ` with nothing after the space gives an empty token: 401 |
| Schema.IndexOfId | server-sqlite-complete.js:290-300 | finds the position of the row with an id, None exactly when no row has it |
| Routes.AttendanceQuery | server-sqlite-complete.js:342-366 | the rows returned exist and are in the date range; a non-admin gets exactly their own rows in range; an admin gets exactly the in-range rows of existing employees, of the filtered employee when a filter is given |
| Routes.AttendanceQueryOwnRows | server.js:251-253 | a non-admin's result does not depend on the employee filter they send, and includes every own row in range |
| Routes.AttendanceSingleDay | server-sqlite-complete.js:342-366 | for a one-day range only that day's rows come back, at most one per employee |
| Routes.LeavesQuery | server-sqlite-complete.js:383-401 | a leave is returned exactly when it is visible to the caller (admins: leaves of existing employees; others: their own) |
| Routes.LeavesQueryOwn | server.js:280-298 | a non-admin gets exactly their own leaves |
| Routes.PayrollQuery | server.js:316-341 | rows of the requested period only; an admin gets every period row of an existing employee and no other; a non-admin gets at most their own row, and none exactly when they have no row |
| Routes.AttendanceLines | server-sqlite-complete.js:484-496 | the attendance report has one line per employee with role 'employee' |
| Routes.AttendanceLinesAt | server-sqlite-complete.js:484-496 | the line of each staff employee, in id order, holds that employee's present, absent and late counts |
| Routes.AttendanceLineBound | server-sqlite-complete.js:486-491 | present + absent + late days never exceed the employee's rows in range, and are at most 1 for a one-day range |
| Routes.SingleDayRows | server-sqlite-complete.js:72 | because (employee, date) is unique, a one-day range holds at most one of an employee's attendance rows |
| Routes.PayrollLines | server-sqlite-complete.js:497-506 | as many lines as employees with a row for the period, all of that period |
| Routes.PayrollLinesAt | server-sqlite-complete.js:497-506 | the line of an employee with a period row carries that employee's name and department and that row's four money columns, in employee order |
| Routes.PayrollLinesComplete | server-sqlite-complete.js:497-506 | every period row whose employee exists appears on the report |
| Routes.PayrollLinesSound | server-sqlite-complete.js:497-506 | every report line is the line of some employee and that employee's period row |
| Routes.RunReport | server.js:380-420 | only 'attendance' and 'payroll' are reports; anything else is 400 'Invalid report type' |
| Store.SampleEmployees | server-sqlite-complete.js:129-135 | the five seeded rows have consecutive ids, unique emails and status active |
| Store.SetLeaveStatus | server.js:304 | the leave with the id gets the given status whatever it was; every other leave is unchanged |
| Store.GenerationKeepsNetIdentity | server-sqlite-complete.js:453-459 | after either generation variant every payroll row still has net = basic + allowances − deductions |
| Store.ReplaceAtKeepsOrder | server-sqlite-complete.js:285-307 | rewriting a row in place with its id kept and an unshared email keeps ids ordered, emails unique and ids below the counter |
| Store.RemoveAtKeepsOrder | server-sqlite-complete.js:312 | deleting one row keeps ids ordered, emails unique and every other row |
| Store.Database.constructor | server-sqlite-complete.js:45-103 | empty tables with every counter at 1 |
| Store.Database.Seed | server-sqlite-complete.js:116-152 | seeds the five sample employees only into an empty employees table |
| Store.Database.CreateEmployee | server.js:151-175 | 403 for non-admins; 400 'All fields are required' when a required field is falsy (salary 0 included); 400 'Email already exists' on a duplicate; otherwise 201 with a new row of role 'employee' appended |
| Store.Database.UpdateEmployee | server-sqlite-complete.js:285-307 | 404 for a missing id; 500 when the new email clashes with another row; otherwise the six columns are replaced |
| Store.Database.DeleteEmployee | server-sqlite-complete.js:309-325 | never removes an admin row; 404 when the id is missing or an admin's; otherwise exactly that row goes |
| Store.Database.RecordAttendanceSqlite | server-sqlite-complete.js:328-340 | at most one row per (employee, date): resubmitting replaces the row, with a new id |
| Store.Database.RecordAttendanceMysql | server.js:225-237 | on an existing (employee, date) only check-in, check-out and status change and the id stays |
| Store.Database.CreateLeave | server-sqlite-complete.js:369-381 | the new leave is appended with status 'pending': 201 |
| Store.Database.UpdateLeave | server.js:300-314 | an admin sets any status on the leave with the id, whatever its current status: 200 |
| Store.Database.GeneratePayrollSqlite | server-sqlite-complete.js:446-475 | admins only; the payroll table becomes the SQLite generation of the old tables |
| Store.Database.GeneratePayrollMysql | server.js:343-377 | admins only; the payroll table becomes the MySQL generation of the old tables |
| Store.Database.GetAttendance | server.js:239-263 | the scoped attendance query over the current tables; a non-admin gets only their own rows |
| Store.Database.GetLeaves | server-sqlite-complete.js:383-401 | the scoped leave query; a non-admin gets exactly their own leaves |
| Store.Database.GetPayroll | server-sqlite-complete.js:419-444 | the scoped payroll query; a non-admin gets at most their own row |
| Store.Database.GetReport | server-sqlite-complete.js:478-518 | 403 for non-admins, otherwise the report switch |
| Tally.Count | client/src/components/admin/PayrollManagement.tsx:97 | a filter count is at most the length |
| Tally.CountZero | client/src/components/admin/PayrollManagement.tsx:97 | a filter count is 0 exactly when nothing matches |
| Tally.CountAll | client/src/components/admin/PayrollManagement.tsx:97 | a filter count is the length exactly when everything matches |
| Tally.FilterMapAt | server-sqlite-complete.js:484-496 | filtering then mapping puts the image of the element at position i at index "matches before i" |
| Tally.CountComplement | client/src/components/admin/PayrollManagement.tsx:181 | a condition and its negation split the rows between them |
| Tally.CountDisjoint3 | client/src/components/employee/MyAttendance.tsx:81-84 | three exclusive status counts add up to at most the rows |
| Tally.CountUnion | client/src/components/employee/MyLeaves.tsx:127-129 | counts of two exclusive statuses add up to the count of either |
| Tally.SumCombination | client/src/components/admin/PayrollManagement.tsx:95 | a sum of a field that is basic + allowances − deductions is the sum of basics plus allowances less deductions |
| Reports.ConvertToCsv | client/src/components/admin/Reports.tsx:114-129 | no data gives ""; otherwise the header line then one line per row, joined by newlines |
| Reports.CsvRows | client/src/components/admin/Reports.tsx:117-128 | data.length + 1 lines: the first row's keys joined by ',', then each row's cells in header order |
| Reports.Cells | client/src/components/admin/Reports.tsx:120-125 | one cell per header, the value the row has for it |
| Reports.CsvReadsBack | client/src/components/admin/Reports.tsx:114-129 | when no key or value holds a comma or newline the CSV splits back into its lines, headers and cells |
| Reports.CommaInValueSpillsOver | client/src/components/admin/Reports.tsx:121-123 | a string with a comma is quoted but not escaped, so it reads back as two fields |
| Reports.AttendanceCsvHeader | client/src/components/admin/Reports.tsx:117 | the attendance CSV's first line splits into the report's five column names |
| Reports.ReportFileNameInjective | client/src/components/admin/Reports.tsx:109 | `<type>_report.csv` names differ for different types |
| Reports.ChartData | client/src/components/admin/Reports.tsx:131-141 | one chart point per report line, in order, with that line's figures |
| Reports.PieData | client/src/components/admin/Reports.tsx:143-149 | Present, Absent and Late slices sum the three columns; the payroll report has no slices |
| Reports.PieTotal | client/src/components/admin/Reports.tsx:143-149 | the slices are non-negative and add up to every counted day |
| Reports.SingleDayPieBound | client/src/components/admin/Reports.tsx:143-149 | for a one-day report the pie counts at most one day per staff employee |
| PayrollManagement.Summarize | client/src/components/admin/PayrollManagement.tsx:95-97 | total employees is the row count; paid ≤ total; pending = total − paid is never negative, counts the non-'paid' rows, and is 0 exactly when all are paid; an empty list totals 0 |
| PayrollManagement.TotalPayrollDecomposes | client/src/components/admin/PayrollManagement.tsx:95 | on generated rows the total payroll is total basic plus allowances less deductions |
| PayrollManagement.SummaryOfAppend | client/src/components/admin/PayrollManagement.tsx:95-97 | the total, paid and pending figures add over concatenated lists |
| PayrollManagement.MonthOptions | client/src/components/admin/PayrollManagement.tsx:197-198 | the month selector offers exactly 1..12 in order |
| PayrollManagement.YearOptions | client/src/components/admin/PayrollManagement.tsx:210-211 | five consecutive years, exactly current − 2 .. current + 2 |
| PayrollManagement.FetchSettled | client/src/components/admin/PayrollManagement.tsx:47-58 | the fetched rows replace the list, or the error is shown and the list kept; loading ends |
| PayrollManagement.HandleGenerate | client/src/components/admin/PayrollManagement.tsx:60-70 | posts the selected period; refetches that same period exactly when the post succeeds; a failure shows the error |
| Api.PayrollStatusChip | client/src/components/employee/MyPayroll.tsx:92-94 | success exactly for 'paid', warning otherwise |
| Api.LeaveStatusChip | client/src/components/admin/LeaveManagement.tsx:68-73 | success exactly for 'approved', error exactly for 'rejected', warning otherwise |
| Api.ErrorText | client/src/components/admin/LeaveManagement.tsx:51 | the server's message when it has one, else the fallback |
| Api.LoginResponseUser | server.js:123-130 | the login response's user: the SQLite server includes the salary, the MySQL server does not |
| Api.LoginResponseUserWithSalary | server-sqlite-complete.js:225-233 | the login user with the salary included under either server |
| MyPayroll.Totalize | client/src/components/employee/MyPayroll.tsx:115-117 | paid and pending count exact statuses and together never exceed the rows; they reach the total only when every row is paid or pending; an empty list totals 0 |
| MyPayroll.PayslipLines | client/src/components/employee/MyPayroll.tsx:60-67 | eight lines in order: PAYSLIP; the record's id; month/year; basic, allowances, deductions and net through the formatter; the status |
| MyPayroll.PayslipIsItsLines | client/src/components/employee/MyPayroll.tsx:59-68 | for a status not ending in white space the trimmed payslip is exactly its eight lines joined by newlines |
| MyPayroll.PayslipReadsBack | client/src/components/employee/MyPayroll.tsx:59-68 | when nothing in it produces a newline the payslip splits back into its eight lines in order |
| MyPayroll.EmptyStatusLosesTrailingSpace | client/src/components/employee/MyPayroll.tsx:67-68 | with an empty status the trim also removes the space after 'Status:' |
| MyPayroll.PayslipFileNameFields | client/src/components/employee/MyPayroll.tsx:74 | the file name splits on '_' into 'payslip', the year, and the month with '.txt' |
| MyPayroll.PayslipFileNameInjective | client/src/components/employee/MyPayroll.tsx:74 | payslips of different periods get different file names |
| MyAttendance.Tallies | client/src/components/employee/MyAttendance.tsx:81-84 | present, absent and late count exact statuses; total is the row count; the three add up to at most the total, and to the total exactly when no row has another status |
| MyAttendance.OtherStatusCountsOnlyInTotal | client/src/components/employee/MyAttendance.tsx:81-84 | a 'half_day' (or any other) row adds to the total only |
| MyAttendance.CountedStatusAddsOne | client/src/components/employee/MyAttendance.tsx:83-84 | a 'present', 'absent' or 'late' row adds one to its own counter and to the total, and no other counter moves |
| MyAttendance.StatusColor | client/src/components/employee/MyAttendance.tsx:69-75 | present → success, absent → error, late → warning, anything else → default, each an if-and-only-if |
| LeaveManagement.GetActions | client/src/components/admin/LeaveManagement.tsx:83-99 | actions exactly for 'pending' rows: Approve sends 'approved' and Reject sends 'rejected', both for that row's id |
| LeaveManagement.UiTransitions | client/src/components/admin/LeaveManagement.tsx:83-99 | the page allows a move to status s exactly when the leave is pending and s is 'approved' or 'rejected' |
| LeaveManagement.ActionsAreTerminal | client/src/components/admin/LeaveManagement.tsx:84-98 | after any action the leave is approved or rejected and offers no further action |
| LeaveManagement.HandleStatusUpdate | client/src/components/admin/LeaveManagement.tsx:46-52 | sends the status; refetches exactly on success; a failure shows the error and keeps the list |
| Login.EmailPatternExactly | client/src/components/Login.tsx:47-48 | the pattern accepts exactly the strings with no white space, one '@' with something before it, and after it a '.' neither first nor last |
| Login.LoginErrorText | client/src/components/Login.tsx:61 | the server's message, else the error's message, else 'Login failed. Please try again.' |
| Login.HandleSubmit | client/src/components/Login.tsx:25-66 | errors cleared; blank trimmed fields set their messages together and stop before the pattern and login; a malformed email stops before login; login gets the trimmed values; a stored role redirects to '/' + role; a missing role sets an error and no redirect; loading ends false |
| Login.PaddingNeverReachesLogin | client/src/components/Login.tsx:34-53 | white space around a well-formed email is trimmed before login is called |
| MyLeaves.Counts | client/src/components/employee/MyLeaves.tsx:127-129 | pending, approved and rejected count exact statuses; their sum is at most the leaves, and equal exactly when every leave has one of them |
| MyLeaves.OpenDialog | client/src/components/employee/MyLeaves.tsx:67-75 | the form resets to today–tomorrow, type 'personal', empty reason, and the dialog opens |
| MyLeaves.HandleSubmit | client/src/components/employee/MyLeaves.tsx:81-101 | no user: 'User not authenticated' and no request; otherwise the body carries the user's id, both formatted dates, reason and type; refetch exactly on success |
| MyLeaves.RequestDatesAreCanonical | client/src/components/employee/MyLeaves.tsx:89-95 | the posted dates are canonical and read back as the picked month and year under both servers |
| AdminOverview.OnToken | client/src/components/admin/AdminOverview.tsx:34-42 | no token: no fetch, loading false, 'Please log in to view dashboard data.'; a token: fetch |
| AdminOverview.ComputeStats | client/src/components/admin/AdminOverview.tsx:63-81 | total employees is the list length; present today and pending leaves count exact statuses within their lists; the payroll total starts at 0 |
| AdminOverview.OverviewAgreesWithPages | client/src/components/admin/AdminOverview.tsx:63-74 | the overview's figures equal the payroll, attendance and leave pages' figures on the same lists |
| AdminOverview.StatsSettled | client/src/components/admin/AdminOverview.tsx:44-87 | the figures or the error; loading ends |
| EmployeeOverview.OnUser | client/src/components/employee/EmployeeOverview.tsx:35-39 | stats are fetched exactly when a user is present |
| EmployeeOverview.CurrentSalary | client/src/components/employee/EmployeeOverview.tsx:320 | the Monthly Salary figure is the user's salary, 0 exactly when it is missing or 0 |
| EmployeeOverview.LastPayroll | client/src/components/employee/EmployeeOverview.tsx:67 | the first payroll row's net salary, 0 when there is none |
| EmployeeOverview.ComputeStats | client/src/components/employee/EmployeeOverview.tsx:58-75 | present and absent count exact statuses and together never exceed the rows; pending leaves likewise |
| EmployeeOverview.MysqlLoginHidesSalary | server.js:123-130 | signed in through the MySQL server an employee with a positive salary sees a Monthly Salary of 0; through SQLite they see it |
| EmployeeOverview.CurrentSalaryShowsSalary | client/src/components/employee/EmployeeOverview.tsx:320 | with the salary in the login response Monthly Salary shows the employee's salary |
| Text.Trim | client/src/components/Login.tsx:34-35 | `trim()` cuts only white space at the ends; the result neither starts nor ends with white space; empty exactly for all-space input |
| Text.TrimPadded | client/src/components/employee/MyPayroll.tsx:59-68 | a string without white space at its ends, padded with white space, trims back to itself |
| Text.SplitJoin | server.js:56-57 | joining separator-free parts and splitting again gives the parts |
| Text.JoinSplit | server.js:56-57 | splitting and joining with the same character gives the string back |
| Text.IntToStringInjective | client/src/components/employee/MyPayroll.tsx:74 | different integers render differently |

## Findings

| source | as written | input that shows it | evidently intended | confidence | as-written member | corrected member |
|---|---|---|---|---|---|---|
| server.js:123-130 | the MySQL server's login response has no `salary`, while EmployeeOverview.tsx:320 shows `user?.salary \|\| 0` as Monthly Salary | an employee with salary 75000 signs in through the MySQL server: the profile card shows a Monthly Salary of 0 | include `salary: user.salary` as the SQLite server does (server-sqlite-complete.js:232) | medium; not executed | EmployeeOverview.MysqlLoginHidesSalary (on Api.LoginResponseUser) | EmployeeOverview.CurrentSalaryShowsSalary (on Api.LoginResponseUserWithSalary) |

## Left out

- JWT signing and verification: token verification is a parameter mapping a token to its caller or to nothing. bcrypt hashing and comparison are left out too.
- The login route's credential check (`POST /api/auth/login`) is left out because it is bcrypt and JWT. Only the `user` object it returns is modelled, for the salary finding.
- Express middleware is left out as transport: helmet, CORS, rate limiting, body parsing, static files and the port fallback of `startServer`.
- The sqlite3 and mysql2 drivers, their callbacks and their failures (the 500 'Database error' paths) are left out. The exception is the unique-email violation on update, which is modelled.
- The MySQL schema file is not part of this model. The same unique keys as the SQLite schema are assumed.
- `ORDER BY` of the read routes is left out: queries return sets or filtered sequences.
- The columns joined in for display (`employee_name`, department, position) are left out, as are `created_at` and the time stamps.
- Foreign keys are never switched on in the SQLite server, so `ON DELETE CASCADE` does nothing there. Deleting an employee leaves their attendance, leaves and payroll rows, and the model does the same. The MySQL cascade is not modelled.
- Store.Database.RecordAttendanceMysql: MySQL also advances the autoincrement counter on the update path. The model keeps the counter, which no property depends on.
- PayrollEngine.UpsertStep: InnoDB draws AUTO_INCREMENT values for `INSERT … SELECT … ON DUPLICATE KEY UPDATE` even for rows that end on the update path, and how many depends on the lock mode. The model's counter moves only on a real insert. So the ids of later MySQL inserts are not modelled exactly; the properties claim only that they are fresh and below the counter.
- PayrollEngine.UpsertAll: for the same reason, UpsertAllNoInsert and UpsertAllIdempotent speak about the rows only, not about the counter.
- Store.Database.CreateEmployee: the 400 'Email already exists' follows the MySQL server, where mysql2 reports `ER_DUP_ENTRY` (server.js:163-165). The SQLite server tests `err.code === 'SQLITE_CONSTRAINT_UNIQUE'` (server-sqlite-complete.js:267). node-sqlite3 may report only the primary code `SQLITE_CONSTRAINT`, and the duplicate then gets 500 'Database error' (server-sqlite-complete.js:270-271). The model assumes the extended code, so both servers answer 400.
- Store.Database.CreateEmployee: the hire date is stored as given, and a request with fields missing from the JSON body is not modelled. The model reads a missing salary as 0.
- Store.Database.UpdateEmployee: fields missing from the JSON body are not modelled either. Under SQLite a missing name, email, department, position or salary writes NULL into a NOT NULL column (server-sqlite-complete.js:49-54), which fails with 500; a missing status writes NULL. The model takes every field as given.
- Dates.IsDashedDate: MySQL's date reading is modelled only for dashed dates with a four-digit year and a one- or two-digit month and day. Other delimiters, two-digit years and dates without delimiters are not modelled. Neither is MySQL's rejection of out-of-range fields (month 13, day 32, 30 February), which strict mode raises when the row is stored.
- Store.Database.RecordAttendanceMysql: a MySQL DATE column stores '2024-3-15' as 2024-03-15, so the two spellings are the same (employee, date) key there. The model keys attendance on the date text, so they are two keys.
- MySQL's default case-insensitive collation is not modelled. Under it, the email UNIQUE key and comparisons such as `status = 'active'` or `role = 'admin'` ignore letter case, while the model compares strings exactly.
- The AuthContext that stores the login response for the pages is not part of this model. The pages' `user` is taken to be the login response's `user` object.
- Floating-point rounding of REAL and DECIMAL columns is left out. Money is exact `real`.
- `formatINR` is left out; the payslip takes the formatter as a parameter. The charts' rendering of numbers in JSON is reduced to decimal integer text.
- dayjs and Date arithmetic is left out: today, tomorrow, 30 days ago, the first of the month, and `toISOString` in UTC. These days are parameters of the members that use them.
- The `Promise.all` fan-out of the dashboards is concurrency. It is modelled as one fetch that succeeds or fails as a whole.
- React rendering is left out, along with MUI and DataGrid layout, Recharts, and Blob/URL downloads.
- The pages' fetch handlers other than the payroll page's and the admin overview's have the same shape (rows or error, then loading false) and are not modelled separately.
- EmployeeManagement.tsx, AttendanceManagement.tsx, MyProfile.tsx and the dashboards' routing are form and routing plumbing. They are not part of this model.
