# NotesReminder in Dafny

NotesReminder finds music lessons whose instructors have not yet written notes.
It runs once a day:

- The collector (`scrape_lessons` in noteschecker.py) visits a school's Pike13 schedule for a range of days.
- For each lesson it reads the type, time, instructor, students and note, and writes one CSV row per lesson.
- `main` in run_daily.py reconciles those rows into a SQLite `reminders` table. init_db.py creates that table.
- It then queries the lessons dated on or after the day seven days ago that still have no note. The query has no upper bound, so later-dated lessons come back too. It drops admin time and group lessons, and mails a report grouped by date and instructor.

This project models that pipeline and proves what it promises. The files are:

- `wrappers.dfy`: `Option` and `Result`.
- `text.dfy`: the Python string operations the code relies on. These are `strip`, `split()`, `join`, `replace`, ASCII `title()` and code-point string order.
- `calendar.dfy`: proleptic Gregorian dates, `timedelta` arithmetic, and `strftime`/`strptime` with `"%Y-%m-%d"`.
- `recode.dfy`: the collector's re-decoding of note text, Latin-1 to UTF-8, including the decoding error it does not catch.
- `lessons.dfy`: the scraped row, its `lesson_id` key and the has-notes test.
- `store.dfy`: the `reminders` table.
  - `Table` is a value, and functions say what each SQL statement does to it.
  - The class `ReminderDb` is the database file those statements change in place.
  - It holds the create, upsert, status update and missing-notes query.
- `report.dfy`: the report filter and the grouping, ordering, plain lines and table rows of `send_email_report`, plus the subject line.
- `collector.dfy`: the collector's logic:
  - the day list;
  - the lesson-link filter and lesson-number regex;
  - name, notes and field cleaning;
  - the row shape;
  - the output file name;
  - the scraping loops over a snapshot of the portal.
- `daily.dfy`: `main`, composed from the parts above.

The web portal, the clock and SQLite's `CURRENT_DATE` are parameters:

- A `Portal` value says which pages load and what they show.
- `now` is a `Date`.
- `sqlToday` is the text SQLite would use for `CURRENT_DATE`.

## Model

| member | source | states |
|---|---|---|
| Lessons.HasNotes | run_daily.py:228 | a row counts as noted exactly when its notes are not `"No notes"` and not all whitespace |
| Lessons.AttendanceOf | run_daily.py:248 | the attendance stored is the row's value, or `"unknown"` when the row has none |
| Lessons.LessonIdStable | run_daily.py:220 | two rows that agree on lesson type, date, time and students get the same key, whatever their instructor, notes or attendance |
| Lessons.LessonIdInjective | run_daily.py:220 | with dash-free lesson types and times and ten-character dates, equal keys mean equal lesson type, date, time and students |
| Lessons.LessonIdCollision | run_daily.py:220 | a dash inside the time lets two different rows share one key |
| Text.StripEmptyIff | run_daily.py:228 | `s.strip()` is empty exactly when `s` is all whitespace |
| Text.ReplaceAbsent | run_daily.py:143 | `replace` leaves text without an occurrence of the pattern unchanged |
| Text.ReplaceUpToMatch | run_daily.py:143 | for any text `x` inside which no occurrence of the pattern starts, `replace` copies `x` and puts the replacement in place of the match that follows it |
| Text.ReplaceWhole | run_daily.py:143 | text that is exactly the pattern becomes the replacement |
| Text.TitleIdempotent | run_daily.py:143 | title-casing twice is the same as title-casing once |
| Text.TitleAt | run_daily.py:143 | each character of `title()`'s result is the input character at that place: a non-letter unchanged, a letter re-cased, upper case exactly when it does not follow a letter |
| Text.TitleIsCased | run_daily.py:143 | the result of `title()` is in title form: each letter is upper case exactly when it does not follow a letter |
| Text.WordsOfJoined | noteschecker.py:96 | `split()` of words joined by single spaces gives the words back |
| Text.JoinedWordsShape | noteschecker.py:96 | words joined by single spaces have no whitespace at either end and no whitespace other than single spaces |
| Text.LexLeTotal | run_daily.py:51 | any two strings are ordered one way or the other in code-point order |
| Text.LexLeTrans | run_daily.py:51 | code-point string order is transitive |
| Text.LexLeAntisym | run_daily.py:94 | two strings ordered both ways are equal |
| Calendar.NextDay | noteschecker.py:20 | adding one day gives the day with the next ordinal, and overflows only on 31 December 9999 |
| Calendar.AddDays | noteschecker.py:20 | adding `n` days, when it does not overflow, gives a valid date whose ordinal is `n` more |
| Calendar.AddDaysWithin | noteschecker.py:20 | adding days never overflows while the result stays at or before a valid date |
| Calendar.SubDays | run_daily.py:43 | subtracting `n` days, when it does not overflow, gives a valid date whose ordinal is `n` less |
| Calendar.SubDaysOverflow | run_daily.py:43 | subtracting `n` days overflows exactly when the ordinal is at most `n` |
| Calendar.OrdinalMonotone | noteschecker.py:19 | an earlier date has a smaller ordinal, so `(end - start).days` is the ordinal difference |
| Calendar.OrdinalInjective | noteschecker.py:19 | two valid dates with the same ordinal are the same date |
| Calendar.IsoRoundTrip | noteschecker.py:17-20 | `strptime` with `"%Y-%m-%d"` reads back the date `strftime` wrote |
| Calendar.IsoInjective | noteschecker.py:20 | different dates are written as different strings |
| Store.CreateIfAbsent | init_db.py:7-22 | a database without the table gets an empty table with the 13 declared columns (no `attendance_status`) and fresh ids, and an existing table is kept as it is |
| Store.CreateWithAttendance | init_db.py:7-22 | the corrected creation: the same, with `attendance_status` among the columns |
| Store.CreateIfAbsentIdempotent | init_db.py:8 | creating the table twice is the same as creating it once |
| Store.UpsertRowFails | run_daily.py:230-255 | one upsert fails exactly when the table lacks `attendance_status` or the key is stored under another school (UNIQUE `lesson_id`) |
| Store.UpsertRowStores | run_daily.py:236-253 | after an upsert, the key is stored under the school with the row's instructor, date, time, type, students, note flag, attendance and today's `last_checked` |
| Store.UpsertRowFrame | run_daily.py:237-253 | an upsert changes only its own key. An update keeps the id, `reminder_sent`, `reminder_count` and `last_reminder_sent`. An insert uses the defaults and the next id |
| Store.UpsertRowIdempotent | run_daily.py:230-255 | upserting the same row again on the same day changes nothing |
| Store.UpsertRowKeepsIds | init_db.py:9 | ids stay positive, below the next id and distinct through an upsert |
| Store.CreatedSchemaRejectsUpsert | init_db.py:7-22 | with the columns the `CREATE TABLE` declares, every upsert fails with no such column `attendance_status` |
| Store.InitializedRejectsBatch | run_daily.py:219-255 | a batch of one or more rows reconciled into a freshly initialised table stops at its first row with no such column `attendance_status`, and the table stays empty |
| Store.InitializeThenReconcile | init_db.py:8-22 | `--init-db` on a file without the table, then reconciling a non-empty batch, fails with no such column and leaves the empty declared table |
| Store.SchemaAcceptsUpsert | run_daily.py:250-253 | with `attendance_status` added, the fresh empty table of the corrected creation accepts any first row under its school |
| Store.UpsertRowsUntouched | run_daily.py:219-255 | a key that no row of the batch has is left as it was, present or absent |
| Store.UpsertRowsKeepIds | run_daily.py:219-255 | ids stay fresh through a whole batch |
| Store.UpsertRowsSettles | run_daily.py:219-255 | after a batch that completes, every key of the batch is stored under the school and holds its last row's values |
| Store.UpsertRowsSettlesKey | run_daily.py:219-255 | the same, for one key of the batch |
| Store.UpsertRowsColumns | run_daily.py:219-255 | a batch never changes the columns |
| Store.UpsertRowsOverStored | run_daily.py:219-255 | a batch whose keys are all stored under the school succeeds. It keeps the key set and the next id, refreshes exactly the batch's keys from their last rows and leaves the rest |
| Store.UpsertRowsIdempotent | run_daily.py:219-255 | rerunning a completed batch on the same day changes nothing |
| Store.RefreshedTwice | run_daily.py:237-248 | refreshing a stored row twice is the same as refreshing it with the second row |
| Store.SetStatusFrame | run_daily.py:63-68 | the status update sets only the note flag (1 or 0 from `has_notes`) and `last_checked` of the given key and touches nothing else |
| Store.UpsertedLessonMissing | run_daily.py:43-52 | after an upsert, the query selects that lesson exactly when the row has no note and its date is on or after the cutoff |
| Store.MissingAmongStep | run_daily.py:45-52 | looking at one more stored row adds its lesson to the selection exactly when it has no note, the school matches and its date is not before the cutoff |
| Store.DateTimeLeTotal | run_daily.py:51 | the `(lesson_date, lesson_time)` order is total |
| Store.DateTimeLeTrans | run_daily.py:51 | the `(lesson_date, lesson_time)` order is transitive |
| Store.InsertByDateTime | run_daily.py:51 | inserting into a list sorted by `(lesson_date, lesson_time)` keeps it sorted and adds exactly that lesson |
| Store.ReminderDb.constructor | init_db.py:4 | a newly opened database file has no table |
| Store.ReminderDb.InitializeDb | init_db.py:3-27 | the file then holds `CreateIfAbsent` of what it held: the declared table when it had none |
| Store.ReminderDb.Upsert | run_daily.py:230-255 | the file holds the upserted table on success. On failure it is unchanged and the error is returned. Without a table the error is no such table |
| Store.ReminderDb.Reconcile | run_daily.py:219-255 | the file holds the result of upserting the rows in order, each committed before the next. The first error stops the loop with the earlier rows kept |
| Store.ReminderDb.UpdateLessonStatus | run_daily.py:58-71 | the file holds `SetStatus` of the table, or the call fails with no such table |
| Store.ReminderDb.LessonsWithoutNotes | run_daily.py:37-56 | the query returns each stored lesson with note flag 0, this school and a date not before the cutoff exactly once, sorted by `(lesson_date, lesson_time)`. Without a table it fails |
| Report.SelectForReport | run_daily.py:262-281 | the filter loop computes `Selected`: the kept lessons in query order |
| Report.SelectedMembers | run_daily.py:262-281 | an entry is in the report list exactly when some lesson that is neither `"Admin Time"` nor a non-empty students field with a comma gave it |
| Report.SelectedKeepsOrder | run_daily.py:262-281 | a list sorted by date and time stays sorted after the filter |
| Report.DedupOnce | run_daily.py:83-86 | the keys of a dict filled in order are the values seen, each exactly once |
| Report.SortTextSorted | run_daily.py:94 | `sorted()` of strings is ordered and a permutation of its input |
| Report.GroupedDates | run_daily.py:79-91 | the date keys of the grouping are the entries' dates in order of first appearance |
| Report.GroupedInstructors | run_daily.py:79-91 | under each date, the instructor keys are that day's instructors in order of first appearance |
| Report.GroupedLists | run_daily.py:79-91 | each list holds the details of that date's and instructor's lessons, in input order |
| Report.GroupLessons | run_daily.py:79-91 | the grouping loop builds exactly those dicts: dates, then instructors per date, then details per instructor |
| Report.InstructorSection | run_daily.py:103-115 | one instructor gives its heading, one line per lesson and a blank line, and one table row per lesson |
| Report.DateSection | run_daily.py:100-116 | one date gives its heading, then its instructors in sorted order |
| Report.SendEmailReport | run_daily.py:73-117 | an empty list gives no report. Otherwise the lines and rows are those of `ReportOf`, with dates sorted and instructors sorted within each date |
| Report.ReportRowsArePermutation | run_daily.py:94-114 | the table rows are exactly the report entries: a permutation, nothing lost or repeated |
| Report.ReportRowsOrdered | run_daily.py:94-114 | the table rows are ordered by date, then by instructor within a date |
| Report.ReportLinesMatchRows | run_daily.py:99-115 | the plain-text lesson lines and the table rows list the same lessons in the same order |
| Report.GroupRowsAreEntries | run_daily.py:80-114 | the rows for one date and instructor are that pair's entries in input order |
| Report.DropSor | run_daily.py:143 | `-sor` is dropped from a dash-free school name |
| Report.LabelWestU | run_daily.py:143 | `westu-sor` is labelled `West U` |
| Report.LabelTheHeights | run_daily.py:143 | `theheights-sor` is labelled `The Heights` |
| Report.LabelOtherSchool | run_daily.py:143 | a name without `-sor`, `westu` or `theheights` is only title-cased |
| Collector.Shift | noteschecker.py:20 | `start + timedelta(days=i)` within the range is a valid date `i` days after the start |
| Collector.DateRangeLength | noteschecker.py:19-20 | the day list has `(end - start).days + 1` entries, and none exactly when the end is before the start |
| Collector.DateRangeDays | noteschecker.py:20 | the `i`-th entry reads back as the date `i` days after the start |
| Collector.DateRangeMembers | noteschecker.py:16-20 | a date is listed exactly when it lies between the start and the end inclusive |
| Collector.DateRangeEnds | noteschecker.py:20 | a non-empty list starts with the start date and ends with the end date |
| Collector.ScrapeDatesCases | noteschecker.py:16-22 | a given list is used unchanged. With no list and a missing bound it is the `ValueError`. A bad date string fails `strptime`. Otherwise the list is the day range |
| Collector.ScrapeDatesIso | noteschecker.py:16-20 | bounds written by `strftime` give the day range between them |
| Collector.LessonLinksMembers | noteschecker.py:64-68 | a link is kept exactly when its href is present and contains `/e/` |
| Collector.FindLessonRef | noteschecker.py:75 | the search finds the leftmost `/e/` followed by a digit, or reports that there is none |
| Collector.DigitRun | noteschecker.py:75 | `\d+` takes the longest run of digits |
| Collector.LessonNumber | noteschecker.py:75-81 | a found lesson number is a non-empty run of digits |
| Collector.LessonNumberAt | noteschecker.py:75-81 | the number after the first `/e/` is the one found |
| Collector.LessonNumberOfLink | noteschecker.py:74-81 | a schedule link `/e/<digits>…` gives back its own number |
| Collector.NotesUrlRoundTrip | noteschecker.py:81-82 | the notes address built from a lesson number gives that number back |
| Collector.CleanNameShape | noteschecker.py:95-96 | a cleaned name has no whitespace at either end and only single spaces inside |
| Collector.CleanNameIdempotent | noteschecker.py:95-96 | cleaning a cleaned name changes nothing |
| Collector.CleanNames | noteschecker.py:93-97 | one cleaned name per name link, in page order |
| Collector.CollectStudents | noteschecker.py:93-97 | the append loop computes `CleanNames` of the link texts |
| Collector.StudentsComma | noteschecker.py:99 | the students text is empty exactly when there are no names or one empty name. It has a comma exactly when there are two or more names or a name with a comma |
| Recode.RecodeNotes | noteschecker.py:108-111 | text with a character at or above U+0100 falls back to the raw text. Otherwise its Latin-1 bytes are decoded as strict UTF-8, or the decoding fails |
| Recode.AsciiRecodes | noteschecker.py:108-111 | ASCII text passes through the re-decoding unchanged |
| Recode.AsciiPrefix | noteschecker.py:109 | an ASCII prefix decodes to itself in front of whatever follows, and does not change whether the decoding fails |
| Recode.LoneLatin1Fails | noteschecker.py:109-110 | a single character from U+0080 to U+00FF between ASCII text (`"Très bien"`, a no-break space) makes the decoding raise `UnicodeDecodeError`, which the `except` does not catch |
| Recode.RecodeRepairs | noteschecker.py:107-109 | text whose UTF-8 bytes were read as Latin-1 comes back as it was written |
| Recode.CaughtKeepsLatin1 | noteschecker.py:107-111 | with `UnicodeDecodeError` also caught, a lone Latin-1 character between ASCII text leaves the note as it was read |
| Recode.CaughtRepairs | noteschecker.py:107-111 | with `UnicodeDecodeError` also caught, text whose UTF-8 bytes were read as Latin-1 still comes back as written |
| Collector.NotesText | noteschecker.py:104-113 | the notes are `"No notes"` without a note element. Otherwise they are the re-decoded and stripped text, and they are missing exactly when the re-decoding fails. Notes that exist are stripped |
| Collector.AsciiNotesText | noteschecker.py:104-111 | an ASCII note is kept as its stripped text |
| Collector.NotesTextHasNotes | noteschecker.py:104-113 | when the notes are read, the row later counts as noted exactly when a note element was present and its re-decoded, stripped text is neither empty nor `"No notes"` |
| Collector.FieldText | noteschecker.py:127-130 | a field is stripped, and `""` when missing |
| Collector.LessonRowCases | noteschecker.py:74-141 | a link gives a row exactly when it has a lesson number, its page loads with the title, time and instructor elements, its notes page loads and its note decodes. The row holds that page's stripped fields and cleaned students |
| Collector.DayRowsShape | noteschecker.py:73-141 | a day gives at most one row per link, each with the day's date and the collector's row shape |
| Collector.ScrapedRowsOutcome | noteschecker.py:44-141 | the scrape fails exactly when some day's schedule does not load, and then with the first such day. Otherwise every row is well shaped and dated within the list |
| Collector.ScrapedRowsErrSticks | noteschecker.py:44-47 | once a day fails, the whole scrape fails the same way |
| Collector.OutputFileName | noteschecker.py:146 | the file name exists exactly when there is at least one day (else `dates[0]` raises) |
| Collector.CollectFileName | noteschecker.py:146 | bounds written by `strftime`, start first, name the file `<school>_lessons_<start>_to_<end>.csv`, and the only failure is a schedule that does not load. An end before the start fails |
| Collector.ScrapeDay | noteschecker.py:73-141 | the link loop computes `DayRows`. It skips a link without a lesson number, a page that does not load, a missing title, time or instructor element, and a note that does not decode |
| Collector.ScrapeLessons | noteschecker.py:15-149 | `scrape_lessons` computes `Collect`: the day list, the rows day by day and the file name |
| Daily.WeekBefore | run_daily.py:43 | the cutoff today minus seven days is missing exactly when that subtraction overflows |
| Daily.RunDaily | run_daily.py:182-290 | `main` for every case. `--init-db` creates the table as init_db.py declares it. Otherwise the run fails on clock overflow, a missing table, a failed scrape or a missing CSV, with the store unchanged. Else it holds the reconciled table, and on success reports the filtered query result or says all lessons have notes |
| Daily.DefaultRangeReadsBack | run_daily.py:203-215 | with the default range, the CSV the run reads is the one the scrape wrote, and the scrape can fail only on a schedule that does not load |
| Daily.ExplicitRangeReadsBack | run_daily.py:203-215 | explicit `strftime`-style bounds, start first, read back the file the scrape wrote. An end before the start fails in the scrape |
| Daily.ReportedEntries | run_daily.py:259-281 | the reported entries are exactly the stored lessons the query selects that are not admin time or group lessons, in date and time order |
| Daily.GroupLessonsNotReported | run_daily.py:271-273 | a lesson scraped with two or more student names is never reported |

## Left out

- S3 download and upload of the database (run_daily.py:158-180, 191, 196, 290): network I/O. The model starts from, and ends with, the `ReminderDb` object.
- Mail transport: SMTP, MIME assembly and the HTML/CSS around the table (run_daily.py:118-156). The report is modelled as its plain lines and table rows.
- argparse, dotenv and the hard-coded credentials: configuration. `Args` is the parsed command line.
- Browser I/O: login, navigation, waits, screenshots and HTML dumps (noteschecker.py:26-62). A `Portal` value stands for what the pages show. A page that fails to load is an address missing from it.
- The CSV write and read (noteschecker.py:145-147, run_daily.py:214-215): the rows pass directly from the scrape to the reconcile loop. A file name that differs from the expected one stands for `read_csv` not finding the file. A stale file left on disk by an earlier run is not modelled.
- pandas coercion: an empty cell read back as `NaN` (and an empty CSV with no columns) is not modelled. Every field is a string.
- The note-timestamp regex (noteschecker.py:115-122): nothing downstream reads it.
- The clock: every `datetime.now()` call in a run (run_daily.py:43, 207, 208) is taken to give the same instant `now`, and `CURRENT_DATE` is the separate parameter `sqlToday`.
- Text.Title: only ASCII letters are cased. Python's `title()` also cases other Unicode letters.
- Collector.DigitRun: `\d` is taken as ASCII digits only. Python's `re` also matches other Unicode decimal digits.
- Calendar.ParseIso: `strptime` digits are taken as ASCII digits only. Python's `strptime` also accepts other Unicode decimal digits.
- Page timeouts: an element the collector waits for is either on the page or missing, and a missing one times out. The timeouts themselves (15 and 30 seconds) are not modelled.
- Store.ReminderDb.LessonsWithoutNotes: the order of rows with equal `(lesson_date, lesson_time)` is left open, as SQL leaves it. The contract states sortedness and the exact multiset, not one fixed order.
- Daily.RunDaily: the first missing-notes query (run_daily.py:200) is modelled only for the failure it can raise. Its result is never used.
- test_attendance.py is not part of this model: it is a manual debugging script that drives a live browser.

## Findings

The pipeline is modelled as written in both rows. Each corrected definition stands beside it, with the intended property proved.

| source | as written | input that shows it | evidently intended | confidence | as-written member | corrected member |
|---|---|---|---|---|---|---|
| init_db.py:7-22 | the `CREATE TABLE` has no `attendance_status` column, but the upsert at run_daily.py:246 and 251 writes one | `--init-db`, then any run that scrapes at least one lesson: the first UPDATE or INSERT fails with no such column | the table also has `attendance_status`, so the fresh table accepts the upsert | not executed | Store.InitializeThenReconcile | Store.SchemaAcceptsUpsert |
| noteschecker.py:108-111 | only `UnicodeEncodeError` is caught; the `UnicodeDecodeError` that `decode('utf-8')` raises escapes to the `except` at line 138, which drops the whole lesson | a note reading `"Très bien"` (the `è` is one Latin-1 byte that is not UTF-8): the lesson gets no row, so an earlier no-note row for it stays in the report | the fix, labelled robust, falls back to the raw text on any decoding failure | medium, not executed | Recode.LoneLatin1Fails | Recode.CaughtKeepsLatin1 |
