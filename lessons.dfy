/** The rows the collector writes and run_daily.py reads back, and the two
    facts run_daily.py derives from each row: its key and whether it has a
    note (run_daily.py:219-228). */
module Lessons {
  import opened Wrappers
  import opened Text

  /** One CSV row: the `lessons_data` entry built at noteschecker.py:124-133.
      `attendance` is the optional `Attendance Status` column; the collector
      never writes it. */
  datatype ScrapedRow = ScrapedRow(
    school: string,
    date: string,
    time: string,
    instructor: string,
    students: string,
    lessonType: string,
    notes: string,
    attendance: Option<string>)

  /** The collector's marker for a lesson whose notes page has no note. */
  const NoNotes: string := "No notes"

  /** The lesson key: lesson type, date, time and students joined by `-`. */
  function LessonId(row: ScrapedRow): string
  {
    row.lessonType + "-" + row.date + "-" + row.time + "-" + row.students
  }

  /** A row counts as noted unless its notes are exactly `"No notes"` or are
      blank once stripped. */
  function HasNotes(notes: string): (b: bool)
    ensures b <==> notes != NoNotes && !AllSpace(notes)
  {
    StripEmptyIff(notes);
    notes != NoNotes && Strip(notes) != ""
  }

  /** `row.get('Attendance Status', 'unknown')` */
  function AttendanceOf(row: ScrapedRow): (a: string)
    ensures row.attendance.None? ==> a == "unknown"
    ensures row.attendance.Some? ==> a == row.attendance.value
  {
    match row.attendance
    case Some(a) => a
    case None => "unknown"
  }

  /** The key ignores instructor, notes and attendance: correcting any of them
      between two scrapes still finds the same stored lesson. */
  lemma LessonIdStable(a: ScrapedRow, b: ScrapedRow)
    requires a.lessonType == b.lessonType && a.date == b.date
    requires a.time == b.time && a.students == b.students
    ensures LessonId(a) == LessonId(b)
  {
  }

  /** With `-`-free lesson types and times and ten-character ISO dates, the key
      determines the four fields it is built from. */
  lemma LessonIdInjective(a: ScrapedRow, b: ScrapedRow)
    requires '-' !in a.lessonType && '-' !in b.lessonType
    requires '-' !in a.time && '-' !in b.time
    requires |a.date| == 10 && |b.date| == 10
    requires LessonId(a) == LessonId(b)
    ensures a.lessonType == b.lessonType && a.date == b.date
    ensures a.time == b.time && a.students == b.students
  {
    var ra := a.date + "-" + a.time + "-" + a.students;
    var rb := b.date + "-" + b.time + "-" + b.students;
    assert LessonId(a) == a.lessonType + "-" + ra;
    assert LessonId(b) == b.lessonType + "-" + rb;
    SplitAtFirstDash(a.lessonType, ra, b.lessonType, rb);
    var ta := a.time + "-" + a.students;
    var tb := b.time + "-" + b.students;
    assert ra == a.date + "-" + ta;
    assert rb == b.date + "-" + tb;
    SplitAtDate(a.date, ta, b.date, tb);
    SplitAtFirstDash(a.time, a.students, b.time, b.students);
  }

  lemma SplitAtDate(x: string, u: string, y: string, v: string)
    requires |x| == 10 && |y| == 10
    requires x + "-" + u == y + "-" + v
    ensures x == y && u == v
  {
    var s := x + "-" + u;
    assert x == s[..10];
    assert u == s[11..];
    assert y == (y + "-" + v)[..10];
    assert v == (y + "-" + v)[11..];
  }

  lemma SplitAtFirstDash(x: string, u: string, y: string, v: string)
    requires '-' !in x && '-' !in y
    requires x + "-" + u == y + "-" + v
    ensures x == y && u == v
  {
    var s := x + "-" + u;
    DashAfter(x, u);
    DashAfter(y, v);
    if |x| == |y| {
      assert x == s[..|x|];
      assert y == (y + "-" + v)[..|y|];
      assert u == s[|x| + 1..];
      assert v == (y + "-" + v)[|y| + 1..];
    }
  }

  /** In `x + "-" + u`, the dash sits right after `x`, and what comes
      before it is `x`. */
  lemma DashAfter(x: string, u: string)
    ensures (x + "-" + u)[|x|] == '-'
    ensures forall i :: 0 <= i < |x| ==> (x + "-" + u)[i] == x[i]
  {
  }

  /** When a time may contain `-` (a location suffix, say), two different
      lessons can share a key and so share one stored record. */
  lemma LessonIdCollision()
    ensures var a := ScrapedRow("westu-sor", "2025-06-19", "3:00pm - Room", "Zach Jones", "Jane", "Private Lesson", "", None);
            var b := ScrapedRow("westu-sor", "2025-06-19", "3:00pm ", "Zach Jones", " Room-Jane", "Private Lesson", "", None);
            a != b && LessonId(a) == LessonId(b)
  {
    var a := ScrapedRow("westu-sor", "2025-06-19", "3:00pm - Room", "Zach Jones", "Jane", "Private Lesson", "", None);
    var b := ScrapedRow("westu-sor", "2025-06-19", "3:00pm ", "Zach Jones", " Room-Jane", "Private Lesson", "", None);
    assert a.time != b.time;
    assert LessonId(a) == LessonId(b);
  }
}
