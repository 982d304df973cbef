/** The collector, `scrape_lessons` in noteschecker.py: the list of days to
    visit, the lesson links taken from each day's schedule, the lesson number
    read from each link, the row written for each lesson page, and the name of
    the CSV file the rows go to. The pages themselves are a `Portal` value:
    what the browser would have found at each address. */
module Collector {
  import opened Wrappers
  import opened Text
  import opened Calendar
  import opened Lessons
  import opened Recode

  /** The ways `scrape_lessons` ends with an exception. */
  datatype CollectError =
    | MissingRange                      // ValueError: no `dates` and a bound missing
    | BadDate(text: string)             // ValueError from `strptime`
    | ScheduleUnavailable(date: string) // the schedule lane never appears (not caught)
    | NoDates                           // IndexError at `dates[0]`

  /** Python truthiness of an optional text argument. */
  predicate Given(a: Option<string>)
  {
    a.Some? && a.value != ""
  }

  // ---------------------------------------------------------------------
  // The days to visit (noteschecker.py:16-22)
  // ---------------------------------------------------------------------

  /** `(end - start).days` */
  function DaysBetween(start: Date, end: Date): int
    requires Valid(start) && Valid(end)
  {
    Ordinal(end) - Ordinal(start)
  }

  /** `start + timedelta(days=i)` for a day no later than `end`, which never
      overflows. */
  function Shift(start: Date, i: nat, end: Date): (d: Date)
    requires Valid(start) && Valid(end) && Ordinal(start) + i <= Ordinal(end)
    ensures Valid(d) && Ordinal(d) == Ordinal(start) + i
  {
    AddDaysWithin(start, i, end);
    AddDays(start, i).value
  }

  /** The comprehension over `range(delta + 1)`. */
  function DateRange(start: Date, end: Date): seq<string>
    requires Valid(start) && Valid(end)
  {
    var n := DaysBetween(start, end) + 1;
    if n <= 0 then []
    else seq(n, (i: int) requires 0 <= i < n => Iso(Shift(start, i, end)))
  }

  /** `(end - start).days + 1` entries, none when the end precedes the start. */
  lemma DateRangeLength(start: Date, end: Date)
    requires Valid(start) && Valid(end)
    ensures |DateRange(start, end)| == if Ordinal(end) < Ordinal(start) then 0 else DaysBetween(start, end) + 1
    ensures DateRange(start, end) == [] <==> Before(end, start)
  {
    if Before(end, start) {
      OrdinalMonotone(end, start);
    } else if Ordinal(end) < Ordinal(start) {
      if end == start {
      } else {
        assert Before(start, end);
        OrdinalMonotone(start, end);
      }
    }
  }

  /** Entry `i` is the text form of the day `i` days after the start, so the
      entries are consecutive days in ascending order. */
  lemma DateRangeDays(start: Date, end: Date)
    requires Valid(start) && Valid(end)
    ensures var r := DateRange(start, end);
      forall i :: 0 <= i < |r| ==>
        ParseIso(r[i]).Some? && Ordinal(ParseIso(r[i]).value) == Ordinal(start) + i
  {
    var r := DateRange(start, end);
    forall i | 0 <= i < |r|
      ensures ParseIso(r[i]).Some? && Ordinal(ParseIso(r[i]).value) == Ordinal(start) + i
    {
      IsoRoundTrip(Shift(start, i, end));
    }
  }

  /** A day is listed exactly when it lies between the bounds, inclusive. */
  lemma DateRangeMembers(start: Date, end: Date, d: Date)
    requires Valid(start) && Valid(end) && Valid(d)
    ensures Iso(d) in DateRange(start, end) <==> Ordinal(start) <= Ordinal(d) <= Ordinal(end)
  {
    var r := DateRange(start, end);
    if Ordinal(start) <= Ordinal(d) <= Ordinal(end) {
      var i := Ordinal(d) - Ordinal(start);
      OrdinalInjective(Shift(start, i, end), d);
      assert r[i] == Iso(d);
    }
    if Iso(d) in r {
      var i :| 0 <= i < |r| && r[i] == Iso(d);
      IsoInjective(Shift(start, i, end), d);
    }
  }

  /** For start on or before end, the list opens with the start and closes
      with the end. */
  lemma DateRangeEnds(start: Date, end: Date)
    requires Valid(start) && Valid(end) && Ordinal(start) <= Ordinal(end)
    ensures var r := DateRange(start, end);
      r != [] && r[0] == Iso(start) && r[|r| - 1] == Iso(end)
  {
    var r := DateRange(start, end);
    OrdinalInjective(Shift(start, 0, end), start);
    OrdinalInjective(Shift(start, |r| - 1, end), end);
  }

  /** The `dates` the loop visits: an explicit list unchanged, otherwise
      every day from `start_date` to `end_date`. */
  function ScrapeDates(dates: Option<seq<string>>, startDate: Option<string>, endDate: Option<string>): Result<seq<string>, CollectError>
  {
    if dates.None? && Given(startDate) && Given(endDate) then
      match ParseIso(startDate.value)
      case None => Err(BadDate(startDate.value))
      case Some(s) =>
        match ParseIso(endDate.value)
        case None => Err(BadDate(endDate.value))
        case Some(e) => Ok(DateRange(s, e))
    else if dates.None? then Err(MissingRange)
    else Ok(dates.value)
  }

  /** The error cases of the date arguments, and the list used otherwise. */
  lemma ScrapeDatesCases(dates: Option<seq<string>>, startDate: Option<string>, endDate: Option<string>)
    ensures var r := ScrapeDates(dates, startDate, endDate);
      && (dates.Some? ==> r == Ok(dates.value))
      && (r == Err(MissingRange) <==> dates.None? && !(Given(startDate) && Given(endDate)))
      && (r.Err? && r.error.BadDate? ==>
            dates.None? && (ParseIso(startDate.value).None? || ParseIso(endDate.value).None?))
      && (r.Ok? && dates.None? ==>
            exists s, e :: ParseIso(startDate.value) == Some(s) && ParseIso(endDate.value) == Some(e)
              && r.value == DateRange(s, e))
  {
  }

  /** Bounds written as `strftime` writes them give the days between them. */
  lemma ScrapeDatesIso(start: Date, end: Date)
    requires Valid(start) && Valid(end)
    ensures ScrapeDates(None, Some(Iso(start)), Some(Iso(end))) == Ok(DateRange(start, end))
  {
    IsoRoundTrip(start);
    IsoRoundTrip(end);
    assert |Iso(start)| == 10 && |Iso(end)| == 10;
  }

  // ---------------------------------------------------------------------
  // Lesson links and lesson numbers (noteschecker.py:64-82)
  // ---------------------------------------------------------------------

  predicate Contains(s: string, pat: string)
  {
    exists i :: 0 <= i <= |s| && OccursAt(s, pat, i)
  }

  /** The page script's filter: present, non-empty hrefs containing `/e/`. */
  function LessonLinks(hrefs: seq<Option<string>>): seq<string>
  {
    if hrefs == [] then []
    else
      var h := hrefs[|hrefs| - 1];
      var rest := LessonLinks(hrefs[..|hrefs| - 1]);
      if h.Some? && h.value != "" && Contains(h.value, "/e/") then rest + [h.value] else rest
  }

  /** Exactly the hrefs that contain `/e/` are kept. */
  lemma {:induction false} LessonLinksMembers(hrefs: seq<Option<string>>, link: string)
    ensures link in LessonLinks(hrefs) <==> Some(link) in hrefs && Contains(link, "/e/")
  {
    if hrefs != [] {
      var init := hrefs[..|hrefs| - 1];
      assert hrefs == init + [hrefs[|hrefs| - 1]];
      LessonLinksMembers(init, link);
    }
  }

  /** `f"https://{school}.pike13.com{link}"` */
  function LessonUrl(school: string, link: string): string
  {
    "https://" + school + ".pike13.com" + link
  }

  /** `f"https://{school}.pike13.com/desk/e/{lesson_id}/notes"` */
  function NotesUrl(school: string, lessonNumber: string): string
  {
    "https://" + school + ".pike13.com/desk/e/" + lessonNumber + "/notes"
  }

  predicate AllDigits(s: string)
  {
    forall i :: 0 <= i < |s| ==> IsDigit(s[i])
  }

  /** Where the pattern `/e/(\d+)` can start a match. */
  predicate LessonRefAt(s: string, i: nat)
  {
    OccursAt(s, "/e/", i) && i + 3 < |s| && IsDigit(s[i + 3])
  }

  /** The leftmost match position at or after `from`, as `re.search` finds it. */
  function FindLessonRef(s: string, from: nat): (r: Option<nat>)
    ensures r.Some? ==>
      && from <= r.value && LessonRefAt(s, r.value)
      && (forall j :: from <= j < r.value ==> !LessonRefAt(s, j))
    ensures r.None? ==> forall j :: from <= j ==> !LessonRefAt(s, j)
    decreases |s| - from
  {
    if from + 3 >= |s| then None
    else if LessonRefAt(s, from) then Some(from)
    else FindLessonRef(s, from + 1)
  }

  /** Length of the run of digits that starts `t` (the greedy `\d+`). */
  function DigitRun(t: string): (n: nat)
    ensures n <= |t| && AllDigits(t[..n])
    ensures n == |t| || !IsDigit(t[n])
  {
    if t == [] || !IsDigit(t[0]) then 0
    else
      var n := 1 + DigitRun(t[1..]);
      assert t[..n] == [t[0]] + t[1..][..n - 1];
      n
  }

  /** `re.search(r'/e/(\d+)', url).group(1)`, or `None` when there is no match. */
  function LessonNumber(url: string): (r: Option<string>)
    ensures r.Some? ==> r.value != [] && AllDigits(r.value)
  {
    match FindLessonRef(url, 0)
    case None => None
    case Some(i) =>
      var t := url[i + 3..];
      Some(t[..DigitRun(t)])
  }

  /** `/e/` followed by a digit, not preceded by any earlier such spot, gives
      exactly the digits that follow it. */
  lemma LessonNumberAt(p: string, number: string, tail: string)
    requires number != [] && AllDigits(number) && (tail == [] || !IsDigit(tail[0]))
    requires forall j :: 0 <= j < |p| ==> !LessonRefAt(p + "/e/" + number + tail, j)
    ensures LessonNumber(p + "/e/" + number + tail) == Some(number)
  {
    var s := p + "/e/" + number + tail;
    assert s[|p|..|p| + 3] == "/e/";
    assert s[|p| + 3] == number[0];
    assert LessonRefAt(s, |p|);
    var i := FindLessonRef(s, 0).value;
    assert i == |p|;
    var t := s[i + 3..];
    assert t == number + tail;
    DigitRunOf(number, tail);
    assert t[..|number|] == number;
  }

  lemma {:induction false} DigitRunOf(number: string, tail: string)
    requires AllDigits(number) && (tail == [] || !IsDigit(tail[0]))
    ensures DigitRun(number + tail) == |number|
  {
    if number != [] {
      assert (number + tail)[1..] == number[1..] + tail;
      DigitRunOf(number[1..], tail);
    } else {
      assert number + tail == tail;
    }
  }

  /** The host part of a URL: no `/` inside the school name means the only
      slashes before the path are the two of `https://`. */
  lemma NoRefInHost(school: string, extra: string, rest: string)
    requires '/' !in school
    requires extra == "" || extra == "/desk"
    requires rest != [] && rest[0] == '/'
    ensures var p := "https://" + school + ".pike13.com" + extra;
      forall j :: 0 <= j < |p| ==> !LessonRefAt(p + rest, j)
  {
    var host := "https://" + school + ".pike13.com";
    var p := host + extra;
    var s := p + rest;
    forall j | 0 <= j < |p|
      ensures !LessonRefAt(s, j)
    {
      if j < 8 {
        assert s[7] == '/' && s[6] == '/';
        if j == 7 {
          if |school| >= 2 {
            assert s[9] == school[1];
          } else {
            assert s[9] == ".pike13.com"[1 - |school|];
          }
        } else if j != 6 {
          assert s[j] == "https://"[j];
        }
      } else if j < 8 + |school| {
        assert s[j] == school[j - 8];
      } else if j < |host| {
        assert s[j] == ".pike13.com"[j - 8 - |school|];
      } else {
        assert s[j] == extra[j - |host|];
        if j == |host| {
          assert s[j + 1] == 'd';
        }
      }
    }
  }

  /** The lesson number read from a lesson's address is the one in its link. */
  lemma LessonNumberOfLink(school: string, number: string, tail: string)
    requires '/' !in school
    requires number != [] && AllDigits(number) && (tail == [] || !IsDigit(tail[0]))
    ensures LessonNumber(LessonUrl(school, "/e/" + number + tail)) == Some(number)
  {
    var p := "https://" + school + ".pike13.com";
    NoRefInHost(school, "", "/e/" + number + tail);
    assert p + "" == p;
    assert LessonUrl(school, "/e/" + number + tail) == p + "/e/" + number + tail;
    assert p + ("/e/" + number + tail) == p + "/e/" + number + tail;
    LessonNumberAt(p, number, tail);
  }

  /** The notes address carries the same lesson number: reading it back gives
      the number the address was built from. */
  lemma NotesUrlRoundTrip(school: string, number: string)
    requires '/' !in school
    requires number != [] && AllDigits(number)
    ensures LessonNumber(NotesUrl(school, number)) == Some(number)
  {
    var p := "https://" + school + ".pike13.com" + "/desk";
    NoRefInHost(school, "/desk", "/e/" + number + "/notes");
    assert NotesUrl(school, number) == p + "/e/" + number + "/notes";
    assert p + ("/e/" + number + "/notes") == p + "/e/" + number + "/notes";
    LessonNumberAt(p, number, "/notes");
  }

  // ---------------------------------------------------------------------
  // The row written for one lesson (noteschecker.py:88-133)
  // ---------------------------------------------------------------------

  /** One student's name as shown on the page, cleaned: newlines become
      spaces, the ends are stripped and whitespace runs become one space. */
  function CleanName(text: string): string
  {
    Join(" ", Words(Strip(Replace(text, "\n", " "))))
  }

  /** A cleaned name has no whitespace at either end, no whitespace other
      than single spaces. */
  lemma CleanNameShape(text: string)
    ensures var c := CleanName(text);
      && IsStripped(c)
      && (forall i :: 0 <= i < |c| && IsSpace(c[i]) ==> c[i] == ' ')
      && (forall i :: 0 <= i < |c| - 1 && c[i] == ' ' ==> c[i + 1] != ' ')
  {
    JoinedWordsShape(Words(Strip(Replace(text, "\n", " "))));
  }

  /** Cleaning a cleaned name changes nothing. */
  lemma CleanNameIdempotent(text: string)
    ensures CleanName(CleanName(text)) == CleanName(text)
  {
    var ws := Words(Strip(Replace(text, "\n", " ")));
    var c := Join(" ", ws);
    assert CleanName(text) == c;
    assert Replace(c, "\n", " ") == c by {
      JoinedWordsShape(ws);
      NoNewlineKept(c);
    }
    assert Strip(c) == c by {
      JoinedWordsShape(ws);
      StripStripped(c);
    }
    assert Words(c) == ws by {
      WordsOfJoined(ws);
    }
    assert CleanName(c) == Join(" ", Words(Strip(Replace(c, "\n", " "))));
  }

  /** Text whose only whitespace is spaces has no newline to replace. */
  lemma NoNewlineKept(c: string)
    requires forall i :: 0 <= i < |c| && IsSpace(c[i]) ==> c[i] == ' '
    ensures Replace(c, "\n", " ") == c
  {
    assert '\n' !in c by {
      forall i | 0 <= i < |c|
        ensures c[i] != '\n'
      {
        assert IsSpace('\n');
      }
    }
    NoFirstChar(c, "\n");
    ReplaceAbsent(c, "\n", " ");
  }

  /** The names in page order, each cleaned. */
  function CleanNames(texts: seq<string>): (names: seq<string>)
    ensures |names| == |texts|
  {
    if texts == [] then []
    else CleanNames(texts[..|texts| - 1]) + [CleanName(texts[|texts| - 1])]
  }

  lemma CleanNamesStep(texts: seq<string>, i: nat)
    requires i < |texts|
    ensures CleanNames(texts[..i + 1]) == CleanNames(texts[..i]) + [CleanName(texts[i])]
  {
    assert texts[..i + 1][..i] == texts[..i];
  }

  /** The students loop: clean each name and append it. */
  method CollectStudents(texts: seq<string>) returns (names: seq<string>)
    ensures names == CleanNames(texts)
  {
    names := [];
    for i := 0 to |texts|
      invariant names == CleanNames(texts[..i])
    {
      CleanNamesStep(texts, i);
      names := names + [CleanName(texts[i])];
    }
    assert texts[..|texts|] == texts;
  }

  /** `", ".join(students)` */
  function StudentsText(names: seq<string>): string
  {
    Join(", ", names)
  }

  /** The students text contains a comma exactly when there are two or more
      names or one of the names has a comma itself; no names give "". */
  lemma {:induction false} StudentsComma(names: seq<string>)
    ensures StudentsText(names) == "" <==> names == [] || (|names| == 1 && names[0] == "")
    ensures ',' in StudentsText(names) <==>
      |names| >= 2 || exists k :: 0 <= k < |names| && ',' in names[k]
  {
    if |names| >= 2 {
      var rest := names[1..];
      StudentsComma(rest);
      assert StudentsText(names) == names[0] + ", " + StudentsText(rest);
      assert (names[0] + ", " + StudentsText(rest))[|names[0]|] == ',';
    } else if |names| == 1 {
      assert StudentsText(names) == names[0];
    }
  }

  /** `"No notes"` when the page has no note element; else the element's
      text after the encoding fix, stripped. `None` is the
      `UnicodeDecodeError` the fix can raise, which skips the lesson. */
  function NotesText(element: Option<string>): (notes: Option<string>)
    ensures element.None? ==> notes == Some(NoNotes)
    ensures element.Some? ==> (notes.None? <==> RecodeNotes(element.value).None?)
    ensures notes.Some? ==> IsStripped(notes.value)
  {
    match element
    case None => Some(NoNotes)
    case Some(raw) =>
      match RecodeNotes(raw)
      case None => None
      case Some(text) => Some(Strip(text))
  }

  /** An ASCII note is kept as its stripped text. */
  lemma AsciiNotesText(raw: string)
    requires IsAscii(raw)
    ensures NotesText(Some(raw)) == Some(Strip(raw))
  {
    AsciiRecodes(raw);
  }

  /** When the notes are read, the lesson counts as noted downstream exactly
      when the page had a note element whose fixed and stripped text is
      neither empty nor `"No notes"`. */
  lemma NotesTextHasNotes(element: Option<string>)
    requires NotesText(element).Some?
    ensures HasNotes(NotesText(element).value) <==>
      element.Some? && Strip(RecodeNotes(element.value).value) != ""
      && Strip(RecodeNotes(element.value).value) != NoNotes
  {
    if element.Some? {
      var t := RecodeNotes(element.value).value;
      StripEmptyIff(t);
      var n := Strip(t);
      if n != [] {
        assert !IsSpace(n[0]);
      }
    }
  }

  /** `x.strip() if x else ""` */
  function FieldText(v: Option<string>): (t: string)
    ensures IsStripped(t)
    ensures v.None? ==> t == ""
  {
    match v
    case None => ""
    case Some(x) => Strip(x)
  }

  /** What the lesson page shows: title, subtitle, the instructor link and
      the student name links. An element that is not on the page is `None`:
      waiting for it times out, which skips the lesson. */
  datatype LessonPage = LessonPage(
    title: Option<string>,
    subtitle: Option<string>,
    instructor: Option<string>,
    studentTexts: seq<string>)

  /** The page has the three elements the collector waits for. */
  predicate Complete(page: LessonPage)
  {
    page.title.Some? && page.subtitle.Some? && page.instructor.Some?
  }

  /** The row appended to `lessons_data`. It has no `Attendance Status`. */
  function RowFor(school: string, date: string, page: LessonPage, notes: string): ScrapedRow
  {
    ScrapedRow(
      school, date,
      FieldText(page.subtitle),
      FieldText(page.instructor),
      StudentsText(CleanNames(page.studentTexts)),
      FieldText(page.title),
      notes,
      None)
  }

  // ---------------------------------------------------------------------
  // The scraping loops (noteschecker.py:44-141) over a portal snapshot
  // ---------------------------------------------------------------------

  /** What the browser finds: for each date whose schedule loads, the hrefs
      of its event links; for each lesson address that loads, its page; for
      each notes address that loads, the note element's text if there is one.
      An address missing from a map is a page that fails to load. */
  datatype Portal = Portal(
    schedule: map<string, seq<Option<string>>>,
    lessonPages: map<string, LessonPage>,
    notePages: map<string, Option<string>>)

  /** The row for one link, or `None` when it is skipped: no lesson number,
      or an exception in the `try` block (a page that does not load, an
      element that never appears, a note that does not decode). */
  function LessonRow(school: string, date: string, link: string, portal: Portal): Option<ScrapedRow>
  {
    var url := LessonUrl(school, link);
    match LessonNumber(url)
    case None => None
    case Some(number) =>
      var notesUrl := NotesUrl(school, number);
      if url !in portal.lessonPages || !Complete(portal.lessonPages[url]) || notesUrl !in portal.notePages then None
      else
        match NotesText(portal.notePages[notesUrl])
        case None => None
        case Some(notes) => Some(RowFor(school, date, portal.lessonPages[url], notes))
  }

  /** A link gives a row exactly when it carries a lesson number, its lesson
      page loads with the title, time and instructor elements, its notes page
      loads, and the note (if any) decodes. The row then holds that page's
      stripped fields, the cleaned students and the notes. */
  lemma LessonRowCases(school: string, date: string, link: string, portal: Portal)
    ensures var url := LessonUrl(school, link);
      var r := LessonRow(school, date, link, portal);
      && (r.Some? <==>
            LessonNumber(url).Some?
            && var notesUrl := NotesUrl(school, LessonNumber(url).value);
            && url in portal.lessonPages && Complete(portal.lessonPages[url])
            && notesUrl in portal.notePages
            && (portal.notePages[notesUrl].Some? ==> RecodeNotes(portal.notePages[notesUrl].value).Some?))
      && (r.Some? ==>
            var page := portal.lessonPages[url];
            && r.value.time == Strip(page.subtitle.value)
            && r.value.instructor == Strip(page.instructor.value)
            && r.value.lessonType == Strip(page.title.value)
            && r.value.students == StudentsText(CleanNames(page.studentTexts))
            && r.value.date == date && r.value.school == school)
  {
  }

  /** The rows for one day's links, in link order. */
  function DayRows(school: string, date: string, links: seq<string>, portal: Portal): seq<ScrapedRow>
  {
    if links == [] then []
    else
      var rest := DayRows(school, date, links[..|links| - 1], portal);
      match LessonRow(school, date, links[|links| - 1], portal)
      case None => rest
      case Some(row) => rest + [row]
  }

  /** The rows for all dates, in date order, or the first date whose
      schedule does not load. */
  function ScrapedRows(school: string, dates: seq<string>, portal: Portal): Result<seq<ScrapedRow>, CollectError>
  {
    if dates == [] then Ok([])
    else
      var date := dates[|dates| - 1];
      match ScrapedRows(school, dates[..|dates| - 1], portal)
      case Err(e) => Err(e)
      case Ok(rows) =>
        if date !in portal.schedule then Err(ScheduleUnavailable(date))
        else Ok(rows + DayRows(school, date, LessonLinks(portal.schedule[date]), portal))
  }

  /** Every row of a day is one of its links' lessons, with the collector's
      shape: this school and date, stripped fields, no attendance. */
  predicate WellShaped(row: ScrapedRow, school: string)
  {
    && row.school == school
    && IsStripped(row.time) && IsStripped(row.instructor)
    && IsStripped(row.lessonType) && IsStripped(row.notes)
    && row.attendance.None?
  }

  lemma {:induction false} DayRowsShape(school: string, date: string, links: seq<string>, portal: Portal)
    ensures var rows := DayRows(school, date, links, portal);
      && |rows| <= |links|
      && forall row :: row in rows ==> WellShaped(row, school) && row.date == date
  {
    if links != [] {
      DayRowsShape(school, date, links[..|links| - 1], portal);
    }
  }

  /** The scrape fails exactly when some date's schedule does not load, and
      then names the earliest such date; otherwise every row has the
      collector's shape and one of the visited dates. */
  lemma {:induction false} ScrapedRowsOutcome(school: string, dates: seq<string>, portal: Portal)
    ensures var r := ScrapedRows(school, dates, portal);
      && (r.Err? <==> exists k :: 0 <= k < |dates| && dates[k] !in portal.schedule)
      && (r.Err? ==>
            exists k ::
              && 0 <= k < |dates| && r.error == ScheduleUnavailable(dates[k]) && dates[k] !in portal.schedule
              && (forall j :: 0 <= j < k ==> dates[j] in portal.schedule))
      && (r.Ok? ==> forall row :: row in r.value ==> WellShaped(row, school) && row.date in dates)
  {
    if dates != [] {
      var init := dates[..|dates| - 1];
      var date := dates[|dates| - 1];
      ScrapedRowsOutcome(school, init, portal);
      assert forall k :: 0 <= k < |init| ==> init[k] == dates[k];
      var r := ScrapedRows(school, init, portal);
      if r.Ok? && date in portal.schedule {
        DayRowsShape(school, date, LessonLinks(portal.schedule[date]), portal);
      }
    }
  }

  /** `f"{school}_lessons_{dates[0]}_to_{dates[-1]}.csv"` */
  function OutputFileName(school: string, dates: seq<string>): (r: Result<string, CollectError>)
    ensures r.Err? <==> dates == []
  {
    if dates == [] then Err(NoDates)
    else Ok(school + "_lessons_" + dates[0] + "_to_" + dates[|dates| - 1] + ".csv")
  }

  /** What one call of `scrape_lessons` leaves behind: the rows of the CSV
      file and its name. */
  datatype Scrape = Scrape(rows: seq<ScrapedRow>, fileName: string)

  function Collect(school: string, dates: Option<seq<string>>, startDate: Option<string>, endDate: Option<string>, portal: Portal): Result<Scrape, CollectError>
  {
    match ScrapeDates(dates, startDate, endDate)
    case Err(e) => Err(e)
    case Ok(ds) =>
      match ScrapedRows(school, ds, portal)
      case Err(e) => Err(e)
      case Ok(rows) =>
        match OutputFileName(school, ds)
        case Err(e) => Err(e)
        case Ok(name) => Ok(Scrape(rows, name))
  }

  /** A start and end written as `strftime` writes them, start first, give
      the file `<school>_lessons_<start>_to_<end>.csv` whenever every
      schedule in between loads; an end before the start gives no dates,
      hence the IndexError. */
  lemma CollectFileName(school: string, start: Date, end: Date, portal: Portal)
    requires Valid(start) && Valid(end)
    ensures var r := Collect(school, None, Some(Iso(start)), Some(Iso(end)), portal);
      && (Ordinal(start) <= Ordinal(end) && r.Ok? ==>
            r.value.fileName == school + "_lessons_" + Iso(start) + "_to_" + Iso(end) + ".csv")
      && (Ordinal(start) <= Ordinal(end) && r.Err? ==> r.error.ScheduleUnavailable?)
      && (Before(end, start) ==> r == Err(NoDates))
  {
    var r := Collect(school, None, Some(Iso(start)), Some(Iso(end)), portal);
    var ds := DateRange(start, end);
    ScrapeDatesIso(start, end);
    var rows := ScrapedRows(school, ds, portal);
    assert r == if rows.Err? then Err(rows.error) else match OutputFileName(school, ds)
      case Err(e) => Err(e)
      case Ok(name) => Ok(Scrape(rows.value, name));
    DateRangeLength(start, end);
    if Ordinal(start) <= Ordinal(end) {
      DateRangeEnds(start, end);
      ScrapedRowsOutcome(school, ds, portal);
    }
  }

  /** Once a prefix of the dates fails, the whole list fails the same way. */
  lemma {:induction false} ScrapedRowsErrSticks(school: string, dates: seq<string>, n: nat, portal: Portal)
    requires n <= |dates| && ScrapedRows(school, dates[..n], portal).Err?
    ensures ScrapedRows(school, dates, portal) == ScrapedRows(school, dates[..n], portal)
    decreases |dates| - n
  {
    if n == |dates| {
      assert dates[..n] == dates;
    } else {
      var init := dates[..|dates| - 1];
      assert init[..n] == dates[..n];
      ScrapedRowsErrSticks(school, init, n, portal);
    }
  }

  /** One day's loop over its links. */
  method ScrapeDay(school: string, date: string, links: seq<string>, portal: Portal) returns (rows: seq<ScrapedRow>)
    ensures rows == DayRows(school, date, links, portal)
  {
    rows := [];
    for i := 0 to |links|
      invariant rows == DayRows(school, date, links[..i], portal)
    {
      DayRowsStep(school, date, links, i, portal);
      var row := ScrapeLink(school, date, links[i], portal);
      if row.Some? {
        rows := rows + [row.value];
      }
    }
    assert links[..|links|] == links;
  }

  /** One pass of the link loop (noteschecker.py:74-141): the lesson number,
      then the `try` block, whose exceptions skip the link. */
  method ScrapeLink(school: string, date: string, link: string, portal: Portal) returns (row: Option<ScrapedRow>)
    ensures row == LessonRow(school, date, link, portal)
  {
    var url := LessonUrl(school, link);
    var number := LessonNumber(url);
    if number.None? {
      return None;
    }
    var notesUrl := NotesUrl(school, number.value);
    if url !in portal.lessonPages {
      return None;
    }
    var page := portal.lessonPages[url];
    if page.title.None? || page.subtitle.None? || page.instructor.None? {
      return None;
    }
    var names := CollectStudents(page.studentTexts);
    if notesUrl !in portal.notePages {
      return None;
    }
    var notes := NotesText(portal.notePages[notesUrl]);
    LessonRowRead(school, date, link, portal, url, number.value, page, notes);
    if notes.None? {
      return None;
    }
    row := Some(ScrapedRow(
      school, date,
      FieldText(page.subtitle),
      FieldText(page.instructor),
      StudentsText(names),
      FieldText(page.title),
      notes.value,
      None));
    assert row == Some(RowFor(school, date, page, notes.value));
  }

  /** Once both pages have loaded, the link's row is the page's row with the
      notes read, if they could be read. */
  lemma LessonRowRead(school: string, date: string, link: string, portal: Portal,
                      url: string, number: string, page: LessonPage, notes: Option<string>)
    requires url == LessonUrl(school, link) && LessonNumber(url) == Some(number)
    requires url in portal.lessonPages && page == portal.lessonPages[url] && Complete(page)
    requires NotesUrl(school, number) in portal.notePages
    requires notes == NotesText(portal.notePages[NotesUrl(school, number)])
    ensures LessonRow(school, date, link, portal) ==
      match notes case None => None case Some(n) => Some(RowFor(school, date, page, n))
  {
  }

  /** One more link adds its row, if it gives one. */
  lemma DayRowsStep(school: string, date: string, links: seq<string>, i: nat, portal: Portal)
    requires i < |links|
    ensures DayRows(school, date, links[..i + 1], portal)
      == DayRows(school, date, links[..i], portal)
         + match LessonRow(school, date, links[i], portal) case None => [] case Some(row) => [row]
  {
    assert links[..i + 1][..i] == links[..i];
  }

  /** `scrape_lessons`: the days, the loop over them, and the file name. */
  method ScrapeLessons(school: string, dates: Option<seq<string>>, startDate: Option<string>, endDate: Option<string>, portal: Portal)
    returns (r: Result<Scrape, CollectError>)
    ensures r == Collect(school, dates, startDate, endDate, portal)
  {
    var ds := ScrapeDates(dates, startDate, endDate);
    if ds.Err? {
      return Err(ds.error);
    }
    var days := ds.value;
    var rows: seq<ScrapedRow> := [];
    for i := 0 to |days|
      invariant ScrapedRows(school, days[..i], portal) == Ok(rows)
    {
      ScrapedRowsStep(school, days, i, portal);
      if days[i] !in portal.schedule {
        ScrapedRowsErrSticks(school, days, i + 1, portal);
        return Err(ScheduleUnavailable(days[i]));
      }
      var dayRows := ScrapeDay(school, days[i], LessonLinks(portal.schedule[days[i]]), portal);
      rows := rows + dayRows;
    }
    assert days[..|days|] == days;
    if days == [] {
      return Err(NoDates);
    }
    r := Ok(Scrape(rows, school + "_lessons_" + days[0] + "_to_" + days[|days| - 1] + ".csv"));
  }

  /** One more day: the error of a schedule that does not load, or that
      day's rows after the earlier ones. */
  lemma ScrapedRowsStep(school: string, days: seq<string>, i: nat, portal: Portal)
    requires i < |days|
    ensures ScrapedRows(school, days[..i + 1], portal) ==
      match ScrapedRows(school, days[..i], portal)
      case Err(e) => Err(e)
      case Ok(rows) =>
        if days[i] !in portal.schedule then Err(ScheduleUnavailable(days[i]))
        else Ok(rows + DayRows(school, days[i], LessonLinks(portal.schedule[days[i]]), portal))
  {
    assert days[..i + 1][..i] == days[..i];
  }
}
