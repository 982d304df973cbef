/** The SQLite `reminders` table (init_db.py) and the statements run_daily.py
    runs against it: the per-row upsert of the reconcile loop, the status
    update and the missing-notes query.

    The table is first described as a value (`Table`) with functions for what
    each statement does to it; `ReminderDb` is the database file those
    statements change in place. */
module Store {
  import opened Wrappers
  import opened Text
  import opened Lessons

  /** One row of `reminders`. Its `lesson_id` is the key it is stored under. */
  datatype Reminder = Reminder(
    id: nat,
    school: string,
    instructorName: string,
    lessonDate: string,
    lessonTime: string,
    lessonType: string,
    students: string,
    reminderSent: int,
    reminderCount: int,
    noteCompleted: int,
    lastChecked: Option<string>,
    lastReminderSent: Option<string>,
    attendanceStatus: Option<string>)

  /** The columns the `CREATE TABLE` statement of init_db.py declares. */
  const CreatedColumns: set<string> := {
    "id", "lesson_id", "school", "instructor_name", "lesson_date", "lesson_time",
    "lesson_type", "students", "reminder_sent", "reminder_count", "note_completed",
    "last_checked", "last_reminder_sent"}

  /** The column run_daily.py's upsert also writes. */
  const AttendanceColumn: string := "attendance_status"

  /** The schema the upsert needs: the created columns and `attendance_status`. */
  const SchemaColumns: set<string> := CreatedColumns + {AttendanceColumn}

  /** The table's columns, its rows keyed by the UNIQUE `lesson_id`, and the
      next value AUTOINCREMENT gives `id`. */
  datatype Table = Table(columns: set<string>, rows: map<string, Reminder>, nextId: nat)

  /** What SQLite raises: `OperationalError` for a missing table or column,
      `IntegrityError` for a second row with the same `lesson_id`. */
  datatype DbError = NoSuchTable | NoSuchColumn(column: string) | UniqueViolation(lessonId: string)

  /** AUTOINCREMENT's promise: every id is positive, below the next one handed
      out, and no two rows share one. */
  ghost predicate IdsFresh(t: Table)
  {
    && t.nextId >= 1
    && (forall k :: k in t.rows ==> 1 <= t.rows[k].id < t.nextId)
    && (forall k, k' :: k in t.rows && k' in t.rows && k != k' ==> t.rows[k].id != t.rows[k'].id)
  }

  /** `CREATE TABLE IF NOT EXISTS` as init_db.py writes it: a database
      without the table gets an empty one with the declared columns (and so
      without `attendance_status`); an existing table is left as it is. */
  function CreateIfAbsent(db: Option<Table>): (r: Option<Table>)
    ensures r.Some?
    ensures db.Some? ==> r == db
    ensures db.None? ==> r.value.rows == map[] && r.value.columns == CreatedColumns && IdsFresh(r.value)
  {
    if db.Some? then db else Some(Table(CreatedColumns, map[], 1))
  }

  /** The initialisation as the upsert needs it: the same statement with the
      `attendance_status` column added. */
  function CreateWithAttendance(db: Option<Table>): (r: Option<Table>)
    ensures r.Some?
    ensures db.Some? ==> r == db
    ensures db.None? ==> r.value.rows == map[] && r.value.columns == SchemaColumns && IdsFresh(r.value)
  {
    if db.Some? then db else Some(Table(SchemaColumns, map[], 1))
  }

  /** Running the initialisation twice is the same as running it once. */
  lemma CreateIfAbsentIdempotent(db: Option<Table>)
    ensures CreateIfAbsent(CreateIfAbsent(db)) == CreateIfAbsent(db)
  {
  }

  /** The lookup `WHERE lesson_id = ? AND school = ?`. */
  predicate Matches(t: Table, lessonId: string, school: string)
  {
    lessonId in t.rows && t.rows[lessonId].school == school
  }

  function NoteFlag(row: ScrapedRow): int
  {
    if HasNotes(row.notes) then 1 else 0
  }

  /** The `UPDATE ... SET` of an existing lesson: the scraped fields, the note
      flag, the attendance and `last_checked`; id, school and the reminder
      columns are kept. */
  function Refreshed(r: Reminder, row: ScrapedRow, today: string): Reminder
  {
    r.(noteCompleted := NoteFlag(row), lastChecked := Some(today),
       instructorName := row.instructor, lessonDate := row.date, lessonTime := row.time,
       lessonType := row.lessonType, students := row.students,
       attendanceStatus := Some(AttendanceOf(row)))
  }

  /** The `INSERT` of a new lesson, with the column defaults for the rest. */
  function Inserted(id: nat, school: string, row: ScrapedRow, today: string): Reminder
  {
    Reminder(id, school, row.instructor, row.date, row.time, row.lessonType, row.students,
             0, 0, NoteFlag(row), Some(today), None, Some(AttendanceOf(row)))
  }

  /** One pass of the reconcile loop for one scraped row against an existing
      table: update the row stored under the same key and school, or insert a
      new one. Both statements name `attendance_status`, so a table without
      that column rejects either; a key stored under another school makes the
      insert break the UNIQUE constraint. */
  function UpsertRow(t: Table, school: string, row: ScrapedRow, today: string): Result<Table, DbError>
  {
    var key := LessonId(row);
    if AttendanceColumn !in t.columns then Err(NoSuchColumn(AttendanceColumn))
    else if Matches(t, key, school) then
      Ok(t.(rows := t.rows[key := Refreshed(t.rows[key], row, today)]))
    else if key in t.rows then Err(UniqueViolation(key))
    else
      Ok(Table(t.columns, t.rows[key := Inserted(t.nextId, school, row, today)], t.nextId + 1))
  }

  /** The upsert fails exactly when the table lacks `attendance_status` or the
      key is already stored under another school. */
  lemma UpsertRowFails(t: Table, school: string, row: ScrapedRow, today: string)
    ensures UpsertRow(t, school, row, today).Err? <==>
      AttendanceColumn !in t.columns || (LessonId(row) in t.rows && !Matches(t, LessonId(row), school))
  {
  }

  /** After a successful upsert the key is stored under the row's school and
      holds the row's values: instructor, date, time, lesson type, students,
      the note flag, the attendance (`unknown` when the row has none) and
      today's date. */
  lemma UpsertRowStores(t: Table, school: string, row: ScrapedRow, today: string)
    requires UpsertRow(t, school, row, today).Ok?
    ensures var t' := UpsertRow(t, school, row, today).value;
      var r := t'.rows[LessonId(row)];
      && Matches(t', LessonId(row), school)
      && r.instructorName == row.instructor && r.lessonDate == row.date
      && r.lessonTime == row.time && r.lessonType == row.lessonType
      && r.students == row.students
      && (r.noteCompleted == 1 <==> HasNotes(row.notes))
      && (r.noteCompleted == 0 <==> !HasNotes(row.notes))
      && r.attendanceStatus == Some(AttendanceOf(row))
      && r.lastChecked == Some(today)
  {
  }

  /** An upsert touches the one key it is about: every other row is unchanged,
      the updated row keeps its id and reminder columns, and a new row gets
      the defaults and the next id. */
  lemma UpsertRowFrame(t: Table, school: string, row: ScrapedRow, today: string)
    requires UpsertRow(t, school, row, today).Ok?
    ensures var t' := UpsertRow(t, school, row, today).value;
      var key := LessonId(row);
      && t'.columns == t.columns
      && t'.rows.Keys == t.rows.Keys + {key}
      && (forall k :: k in t.rows && k != key ==> t'.rows[k] == t.rows[k])
      && (key in t.rows ==>
            && t'.nextId == t.nextId
            && t'.rows[key].id == t.rows[key].id
            && t'.rows[key].reminderSent == t.rows[key].reminderSent
            && t'.rows[key].reminderCount == t.rows[key].reminderCount
            && t'.rows[key].lastReminderSent == t.rows[key].lastReminderSent)
      && (key !in t.rows ==>
            && t'.nextId == t.nextId + 1
            && t'.rows[key].id == t.nextId
            && t'.rows[key].reminderSent == 0 && t'.rows[key].reminderCount == 0
            && t'.rows[key].lastReminderSent == None)
  {
  }

  /** Upserting the same row again on the same day changes nothing. */
  lemma UpsertRowIdempotent(t: Table, school: string, row: ScrapedRow, today: string)
    requires UpsertRow(t, school, row, today).Ok?
    ensures var t' := UpsertRow(t, school, row, today).value;
      UpsertRow(t', school, row, today) == Ok(t')
  {
    var key := LessonId(row);
    var t' := UpsertRow(t, school, row, today).value;
    assert Matches(t', key, school);
    assert t'.rows[key := Refreshed(t'.rows[key], row, today)] == t'.rows;
  }

  /** Ids stay unique and below the next one through an upsert. */
  lemma UpsertRowKeepsIds(t: Table, school: string, row: ScrapedRow, today: string)
    requires IdsFresh(t) && UpsertRow(t, school, row, today).Ok?
    ensures IdsFresh(UpsertRow(t, school, row, today).value)
  {
  }

  /** As written, init_db.py creates no `attendance_status` column, so on a
      freshly initialised table every upsert fails. */
  lemma CreatedSchemaRejectsUpsert(rows: map<string, Reminder>, nextId: nat, school: string, row: ScrapedRow, today: string)
    ensures UpsertRow(Table(CreatedColumns, rows, nextId), school, row, today)
            == Err(NoSuchColumn(AttendanceColumn))
  {
    assert AttendanceColumn !in CreatedColumns;
  }

  /** Hence a batch of one or more rows reconciled into a freshly
      initialised table stops at its first row with no such column, and the
      table stays empty. */
  lemma InitializedRejectsBatch(school: string, batch: seq<ScrapedRow>, today: string)
    requires batch != []
    ensures var t := CreateIfAbsent(None).value;
      UpsertRows(t, school, batch, today) == Outcome(t, Some(NoSuchColumn(AttendanceColumn)))
  {
    CreatedSchemaRejectsUpsert(map[], 1, school, batch[0], today);
  }

  /** With the column the upsert writes, the empty table created by the
      corrected initialisation takes any first row. */
  lemma SchemaAcceptsUpsert(school: string, row: ScrapedRow, today: string)
    ensures var t := CreateWithAttendance(None).value;
      UpsertRow(t, school, row, today).Ok?
      && Matches(UpsertRow(t, school, row, today).value, LessonId(row), school)
  {
    assert AttendanceColumn in SchemaColumns;
  }

  /** The reconcile loop (run_daily.py:219-255) as a function: the rows are
      upserted in order, each committed before the next; the first error stops
      the loop with the rows before it already stored. */
  datatype Outcome = Outcome(table: Table, error: Option<DbError>)

  function UpsertRows(t: Table, school: string, rows: seq<ScrapedRow>, today: string): Outcome
    decreases |rows|
  {
    if rows == [] then Outcome(t, None)
    else match UpsertRow(t, school, rows[0], today)
      case Err(e) => Outcome(t, Some(e))
      case Ok(t') => UpsertRows(t', school, rows[1..], today)
  }

  /** The keys of a batch of scraped rows. */
  function BatchKeys(rows: seq<ScrapedRow>): set<string>
  {
    if rows == [] then {} else {LessonId(rows[0])} + BatchKeys(rows[1..])
  }

  /** The last row of the batch with key `k`: the one whose values stay. */
  function LastRowFor(rows: seq<ScrapedRow>, k: string): ScrapedRow
    requires k in BatchKeys(rows)
  {
    if k in BatchKeys(rows[1..]) then LastRowFor(rows[1..], k) else rows[0]
  }

  /** Reconciling is a partial merge: a key no row of the batch has is left as
      it was (present with the same record, or absent). */
  lemma {:induction false} UpsertRowsUntouched(t: Table, school: string, rows: seq<ScrapedRow>, today: string, k: string)
    requires k !in BatchKeys(rows)
    ensures var t' := UpsertRows(t, school, rows, today).table;
      (k in t'.rows <==> k in t.rows) && (k in t.rows ==> t'.rows[k] == t.rows[k])
    decreases |rows|
  {
    if rows != [] {
      match UpsertRow(t, school, rows[0], today)
      case Err(e) =>
      case Ok(t1) =>
        UpsertRowsUntouched(t1, school, rows[1..], today, k);
    }
  }

  /** Ids stay unique through a whole batch. */
  lemma {:induction false} UpsertRowsKeepIds(t: Table, school: string, rows: seq<ScrapedRow>, today: string)
    requires IdsFresh(t)
    ensures IdsFresh(UpsertRows(t, school, rows, today).table)
    decreases |rows|
  {
    if rows != [] {
      match UpsertRow(t, school, rows[0], today)
      case Err(e) =>
      case Ok(t1) =>
        UpsertRowKeepsIds(t, school, rows[0], today);
        UpsertRowsKeepIds(t1, school, rows[1..], today);
    }
  }

  lemma RefreshedTwice(r: Reminder, a: ScrapedRow, b: ScrapedRow, today: string)
    ensures Refreshed(Refreshed(r, a, today), b, today) == Refreshed(r, b, today)
  {
  }

  /** After a batch that completes, every key of the batch is stored under
      the school and already holds its last row's values. */
  lemma UpsertRowsSettles(t: Table, school: string, rows: seq<ScrapedRow>, today: string)
    requires UpsertRows(t, school, rows, today).error == None
    ensures var t' := UpsertRows(t, school, rows, today).table;
      && (rows != [] ==> AttendanceColumn in t'.columns)
      && forall k :: k in BatchKeys(rows) ==>
           Matches(t', k, school) && Refreshed(t'.rows[k], LastRowFor(rows, k), today) == t'.rows[k]
  {
    if rows != [] {
      var t1 := UpsertRow(t, school, rows[0], today).value;
      UpsertRowsColumns(t1, school, rows[1..], today);
    }
    forall k | k in BatchKeys(rows)
      ensures var t' := UpsertRows(t, school, rows, today).table;
        Matches(t', k, school) && Refreshed(t'.rows[k], LastRowFor(rows, k), today) == t'.rows[k]
    {
      UpsertRowsSettlesKey(t, school, rows, today, k);
    }
  }

  /** The same for one key of the batch. */
  lemma {:induction false} UpsertRowsSettlesKey(t: Table, school: string, rows: seq<ScrapedRow>, today: string, k: string)
    requires UpsertRows(t, school, rows, today).error == None && k in BatchKeys(rows)
    ensures var t' := UpsertRows(t, school, rows, today).table;
      Matches(t', k, school) && Refreshed(t'.rows[k], LastRowFor(rows, k), today) == t'.rows[k]
    decreases |rows|
  {
    var t1 := UpsertRow(t, school, rows[0], today).value;
    assert UpsertRows(t, school, rows, today) == UpsertRows(t1, school, rows[1..], today);
    if k in BatchKeys(rows[1..]) {
      UpsertRowsSettlesKey(t1, school, rows[1..], today, k);
    } else {
      assert k == LessonId(rows[0]);
      UpsertRowStores(t, school, rows[0], today);
      UpsertRowsUntouched(t1, school, rows[1..], today, k);
    }
  }

  lemma {:induction false} UpsertRowsColumns(t: Table, school: string, rows: seq<ScrapedRow>, today: string)
    ensures UpsertRows(t, school, rows, today).table.columns == t.columns
    decreases |rows|
  {
    if rows != [] {
      match UpsertRow(t, school, rows[0], today)
      case Err(e) =>
      case Ok(t1) =>
        UpsertRowsColumns(t1, school, rows[1..], today);
    }
  }

  /** On a table that already stores every key of the batch under the school,
      the batch succeeds and leaves each key with its last row's values. */
  lemma {:induction false} UpsertRowsOverStored(t: Table, school: string, rows: seq<ScrapedRow>, today: string)
    requires AttendanceColumn in t.columns
    requires forall k :: k in BatchKeys(rows) ==> Matches(t, k, school)
    ensures var o := UpsertRows(t, school, rows, today);
      && o.error == None
      && o.table.columns == t.columns && o.table.nextId == t.nextId
      && o.table.rows.Keys == t.rows.Keys
      && forall k :: k in t.rows ==>
           o.table.rows[k] == if k in BatchKeys(rows) then Refreshed(t.rows[k], LastRowFor(rows, k), today) else t.rows[k]
    decreases |rows|
  {
    if rows != [] {
      var key := LessonId(rows[0]);
      assert key in BatchKeys(rows);
      var t1 := UpsertRow(t, school, rows[0], today).value;
      assert t1.rows == t.rows[key := Refreshed(t.rows[key], rows[0], today)];
      UpsertRowsOverStored(t1, school, rows[1..], today);
      var o := UpsertRows(t, school, rows, today);
      forall k | k in t.rows
        ensures o.table.rows[k] == if k in BatchKeys(rows) then Refreshed(t.rows[k], LastRowFor(rows, k), today) else t.rows[k]
      {
        if k == key && k in BatchKeys(rows[1..]) {
          RefreshedTwice(t.rows[k], rows[0], LastRowFor(rows[1..], k), today);
        }
      }
    }
  }

  /** Reconciling the same batch twice on the same day leaves the table as one
      reconcile left it. */
  lemma UpsertRowsIdempotent(t: Table, school: string, rows: seq<ScrapedRow>, today: string)
    requires UpsertRows(t, school, rows, today).error == None
    ensures var t' := UpsertRows(t, school, rows, today).table;
      UpsertRows(t', school, rows, today) == Outcome(t', None)
  {
    var t' := UpsertRows(t, school, rows, today).table;
    if rows != [] {
      UpsertRowsSettles(t, school, rows, today);
      UpsertRowsOverStored(t', school, rows, today);
      var o := UpsertRows(t', school, rows, today);
      assert o.table.rows == t'.rows;
    }
  }

  /** `update_lesson_status`: on the row with the given `lesson_id`, whatever
      its school, set the note flag and `last_checked`; no such row, no change. */
  function SetStatus(t: Table, lessonId: string, hasNotes: bool, today: string): Table
  {
    if lessonId in t.rows then
      t.(rows := t.rows[lessonId := t.rows[lessonId].(noteCompleted := if hasNotes then 1 else 0, lastChecked := Some(today))])
    else t
  }

  /** The status update changes only the note flag and `last_checked` of one
      row; every other row and every other column is unchanged. */
  lemma SetStatusFrame(t: Table, lessonId: string, hasNotes: bool, today: string)
    ensures var t' := SetStatus(t, lessonId, hasNotes, today);
      && t'.columns == t.columns && t'.nextId == t.nextId && t'.rows.Keys == t.rows.Keys
      && (forall k :: k in t.rows && k != lessonId ==> t'.rows[k] == t.rows[k])
      && (lessonId in t.rows ==>
            && (t'.rows[lessonId].noteCompleted == 1 <==> hasNotes)
            && (t'.rows[lessonId].noteCompleted == 0 <==> !hasNotes)
            && t'.rows[lessonId].lastChecked == Some(today)
            && t'.rows[lessonId].(noteCompleted := 0, lastChecked := None)
               == t.rows[lessonId].(noteCompleted := 0, lastChecked := None))
  {
  }

  /** A row of the missing-notes query: `lesson_id, instructor_name,
      lesson_date, lesson_time, lesson_type, students`. */
  datatype Lesson = Lesson(
    lessonId: string, instructor: string, date: string, time: string,
    lessonType: string, students: string)

  function LessonOf(key: string, r: Reminder): Lesson
  {
    Lesson(key, r.instructorName, r.lessonDate, r.lessonTime, r.lessonType, r.students)
  }

  /** The query's `WHERE`: no note, on or after the cutoff (text comparison),
      and the given school. */
  predicate IsMissing(r: Reminder, school: string, cutoff: string)
  {
    r.noteCompleted == 0 && LexLe(cutoff, r.lessonDate) && r.school == school
  }

  /** The lessons among `keys` that the query selects. */
  ghost function MissingAmong(rows: map<string, Reminder>, school: string, cutoff: string, keys: set<string>): set<Lesson>
  {
    set k | k in keys && k in rows && IsMissing(rows[k], school, cutoff) :: LessonOf(k, rows[k])
  }

  /** Looking at one more key adds its lesson when the query selects it. */
  lemma MissingAmongStep(rows: map<string, Reminder>, school: string, cutoff: string, done: set<string>, k: string)
    requires k in rows && k !in done
    ensures var before := MissingAmong(rows, school, cutoff, done);
      var after := MissingAmong(rows, school, cutoff, done + {k});
      && (IsMissing(rows[k], school, cutoff) ==> LessonOf(k, rows[k]) !in before && after == before + {LessonOf(k, rows[k])})
      && (!IsMissing(rows[k], school, cutoff) ==> after == before)
  {
  }

  lemma MultisetAddOne(s: set<Lesson>, x: Lesson)
    requires x !in s
    ensures multiset(s + {x}) == multiset(s) + multiset{x}
  {
  }

  /** After an upsert, the lesson is reported as missing exactly when the row
      has no note, its date is on or after the cutoff and the school matches. */
  lemma UpsertedLessonMissing(t: Table, school: string, row: ScrapedRow, today: string, cutoff: string)
    requires UpsertRow(t, school, row, today).Ok?
    ensures var t' := UpsertRow(t, school, row, today).value;
      var key := LessonId(row);
      var missing := MissingAmong(t'.rows, school, cutoff, t'.rows.Keys);
      (LessonOf(key, t'.rows[key]) in missing <==> !HasNotes(row.notes) && LexLe(cutoff, row.date))
  {
    var t' := UpsertRow(t, school, row, today).value;
    var key := LessonId(row);
    UpsertRowStores(t, school, row, today);
    if LessonOf(key, t'.rows[key]) in MissingAmong(t'.rows, school, cutoff, t'.rows.Keys) {
      var k :| k in t'.rows && IsMissing(t'.rows[k], school, cutoff) && LessonOf(k, t'.rows[k]) == LessonOf(key, t'.rows[key]);
      assert k == key;
    }
  }

  /** `ORDER BY lesson_date, lesson_time`, both compared as text. */
  predicate DateTimeLe(a: Lesson, b: Lesson)
  {
    LexLt(a.date, b.date) || (a.date == b.date && LexLe(a.time, b.time))
  }

  lemma DateTimeLeTotal(a: Lesson, b: Lesson)
    ensures DateTimeLe(a, b) || DateTimeLe(b, a)
  {
    LexLeTotal(a.date, b.date);
    LexLeTotal(a.time, b.time);
  }

  lemma DateTimeLeTrans(a: Lesson, b: Lesson, c: Lesson)
    requires DateTimeLe(a, b) && DateTimeLe(b, c)
    ensures DateTimeLe(a, c)
  {
    if a.date != b.date && b.date != c.date {
      LexLeTrans(a.date, b.date, c.date);
      if a.date == c.date {
        LexLeAntisym(a.date, b.date);
      }
    } else if a.date == b.date && b.date == c.date {
      LexLeTrans(a.time, b.time, c.time);
    }
  }

  predicate SortedByDateTime(s: seq<Lesson>)
  {
    forall i, j :: 0 <= i < j < |s| ==> DateTimeLe(s[i], s[j])
  }

  lemma SortedCons(h: Lesson, s: seq<Lesson>)
    requires SortedByDateTime(s)
    requires forall j :: 0 <= j < |s| ==> DateTimeLe(h, s[j])
    ensures SortedByDateTime([h] + s)
  {
  }

  /** Put `x` into a list kept in query order. */
  function InsertByDateTime(s: seq<Lesson>, x: Lesson): (r: seq<Lesson>)
    requires SortedByDateTime(s)
    ensures SortedByDateTime(r)
    ensures multiset(r) == multiset(s) + multiset{x}
  {
    if s == [] then [x]
    else if DateTimeLe(x, s[0]) then
      FirstBelowAll(x, s);
      SortedCons(x, s);
      [x] + s
    else
      var tail := InsertByDateTime(s[1..], x);
      DateTimeLeTotal(x, s[0]);
      HeadBelowInserted(s, x, tail);
      SortedCons(s[0], tail);
      assert s == [s[0]] + s[1..];
      [s[0]] + tail
  }

  lemma FirstBelowAll(x: Lesson, s: seq<Lesson>)
    requires s != [] && SortedByDateTime(s) && DateTimeLe(x, s[0])
    ensures forall j :: 0 <= j < |s| ==> DateTimeLe(x, s[j])
  {
    forall j | 0 < j < |s| {
      DateTimeLeTrans(x, s[0], s[j]);
    }
  }

  lemma HeadBelowInserted(s: seq<Lesson>, x: Lesson, tail: seq<Lesson>)
    requires s != [] && SortedByDateTime(s) && DateTimeLe(s[0], x)
    requires multiset(tail) == multiset(s[1..]) + multiset{x}
    ensures forall j :: 0 <= j < |tail| ==> DateTimeLe(s[0], tail[j])
  {
    forall j | 0 <= j < |tail|
      ensures DateTimeLe(s[0], tail[j])
    {
      assert tail[j] in multiset(tail);
      if tail[j] != x {
        assert tail[j] in multiset(s[1..]);
        var i :| 0 <= i < |s[1..]| && s[1..][i] == tail[j];
        assert s[i + 1] == tail[j];
      }
    }
  }

  /** The database file. `tableExists` is false for a file that has never been
      initialised (sqlite3 creates it empty on connect). */
  class ReminderDb {
    var tableExists: bool
    var columns: set<string>
    var rows: map<string, Reminder>
    var nextId: nat

    ghost predicate Valid()
      reads this
    {
      tableExists ==> IdsFresh(Table(columns, rows, nextId))
    }

    /** The file's contents: the table, if it exists. */
    function Contents(): Option<Table>
      reads this
    {
      if tableExists then Some(Table(columns, rows, nextId)) else None
    }

    /** `sqlite3.connect` on a file that does not exist yet. */
    constructor Open()
      ensures Valid() && Contents() == None
    {
      tableExists := false;
      columns := {};
      rows := map[];
      nextId := 1;
    }

    /** `initialize_db()` (init_db.py:3-27). */
    method InitializeDb()
      requires Valid()
      modifies this
      ensures Valid()
      ensures Contents() == CreateIfAbsent(old(Contents()))
    {
      if !tableExists {
        tableExists := true;
        columns := CreatedColumns;
        rows := map[];
        nextId := 1;
      }
    }

    /** One pass of the reconcile loop (run_daily.py:220-255) for `row`. */
    method Upsert(school: string, row: ScrapedRow, today: string) returns (err: Option<DbError>)
      requires Valid()
      modifies this
      ensures Valid()
      ensures old(Contents()).None? ==> err == Some(NoSuchTable) && Contents() == old(Contents())
      ensures old(Contents()).Some? ==>
        match UpsertRow(old(Contents()).value, school, row, today)
        case Ok(t) => err == None && Contents() == Some(t)
        case Err(e) => err == Some(e) && Contents() == old(Contents())
    {
      if !tableExists {
        return Some(NoSuchTable);
      }
      var key := LessonId(row);
      var hasNotes := HasNotes(row.notes);
      if AttendanceColumn !in columns {
        return Some(NoSuchColumn(AttendanceColumn));
      }
      if key in rows && rows[key].school == school {
        rows := rows[key := Refreshed(rows[key], row, today)];
      } else if key in rows {
        return Some(UniqueViolation(key));
      } else {
        UpsertRowKeepsIds(Table(columns, rows, nextId), school, row, today);
        rows := rows[key := Inserted(nextId, school, row, today)];
        nextId := nextId + 1;
      }
      err := None;
    }

    /** The whole reconcile loop (run_daily.py:219-255). */
    method Reconcile(school: string, batch: seq<ScrapedRow>, today: string) returns (err: Option<DbError>)
      requires Valid()
      modifies this
      ensures Valid()
      ensures old(Contents()).None? ==>
        Contents() == old(Contents()) && (batch != [] <==> err == Some(NoSuchTable))
      ensures old(Contents()).Some? ==>
        var o := UpsertRows(old(Contents()).value, school, batch, today);
        Contents() == Some(o.table) && err == o.error
    {
      var i := 0;
      err := None;
      while i < |batch|
        invariant 0 <= i <= |batch|
        invariant Valid()
        invariant tableExists == old(tableExists)
        invariant !tableExists ==> Contents() == old(Contents()) && (i == 0 || i == |batch|)
        invariant !tableExists ==> (err == Some(NoSuchTable) <==> i > 0)
        invariant tableExists ==> err == None
        invariant tableExists ==>
          UpsertRows(old(Contents()).value, school, batch, today)
            == UpsertRows(Contents().value, school, batch[i..], today)
      {
        var e := Upsert(school, batch[i], today);
        if e.Some? {
          err := e;
          if tableExists {
            assert UpsertRows(Contents().value, school, batch[i..], today) == Outcome(Contents().value, e);
          }
          return;
        }
        i := i + 1;
      }
    }

    /** `update_lesson_status(lesson_id, has_notes)` (run_daily.py:58-71). */
    method UpdateLessonStatus(lessonId: string, hasNotes: bool, today: string) returns (err: Option<DbError>)
      requires Valid()
      modifies this
      ensures Valid()
      ensures old(Contents()).None? ==> err == Some(NoSuchTable) && Contents() == old(Contents())
      ensures old(Contents()).Some? ==>
        err == None && Contents() == Some(SetStatus(old(Contents()).value, lessonId, hasNotes, today))
    {
      if !tableExists {
        return Some(NoSuchTable);
      }
      if lessonId in rows {
        rows := rows[lessonId := rows[lessonId].(noteCompleted := if hasNotes then 1 else 0, lastChecked := Some(today))];
      }
      err := None;
    }

    /** `get_lessons_without_notes(school)` (run_daily.py:37-56) with the
        cutoff date passed in: exactly the selected lessons, each once, in
        (date, time) order. Rows with equal date and time come in no
        particular order, as in SQL. */
    method LessonsWithoutNotes(school: string, cutoff: string) returns (r: Result<seq<Lesson>, DbError>)
      ensures !tableExists ==> r == Err(NoSuchTable)
      ensures tableExists ==>
        && r.Ok? && SortedByDateTime(r.value)
        && multiset(r.value) == multiset(MissingAmong(rows, school, cutoff, rows.Keys))
    {
      if !tableExists {
        return Err(NoSuchTable);
      }
      var stored := rows;
      var todo := stored.Keys;
      var found: seq<Lesson> := [];
      ghost var done: set<string> := {};
      while todo != {}
        invariant todo <= stored.Keys && done == stored.Keys - todo
        invariant SortedByDateTime(found)
        invariant multiset(found) == multiset(MissingAmong(stored, school, cutoff, done))
        decreases |todo|
      {
        var k :| k in todo;
        MissingAmongStep(stored, school, cutoff, done, k);
        if IsMissing(stored[k], school, cutoff) {
          MultisetAddOne(MissingAmong(stored, school, cutoff, done), LessonOf(k, stored[k]));
          found := InsertByDateTime(found, LessonOf(k, stored[k]));
        }
        done := done + {k};
        todo := todo - {k};
      }
      r := Ok(found);
    }
  }

  /** `--init-db` on a file without the table, then a run that scraped at
      least one lesson: the first upsert fails with no such column and the
      table stays empty. */
  method InitializeThenReconcile(db: ReminderDb, school: string, batch: seq<ScrapedRow>, today: string)
    returns (err: Option<DbError>)
    requires db.Valid() && db.Contents() == None && batch != []
    modifies db
    ensures err == Some(NoSuchColumn(AttendanceColumn))
    ensures db.Contents() == Some(Table(CreatedColumns, map[], 1))
  {
    db.InitializeDb();
    InitializedRejectsBatch(school, batch, today);
    err := db.Reconcile(school, batch, today);
  }
}
