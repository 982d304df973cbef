/** The daily run, `main` in run_daily.py: initialise the store, or query it,
    scrape a date range, reconcile the scraped rows into the store, query it
    again and report the lessons still missing notes. The clock
    (`datetime.now()` and SQLite's `CURRENT_DATE`) and the portal are
    parameters; the store is the `ReminderDb` object the run updates. */
module Daily {
  import opened Wrappers
  import opened Text
  import opened Calendar
  import opened Lessons
  import opened Store
  import opened Report
  import opened Collector

  /** The parsed command line: `--school`, `--start-date`, `--end-date`,
      `--init-db`. */
  datatype Args = Args(school: string, startDate: Option<string>, endDate: Option<string>, initDb: bool)

  /** The exceptions that end a run. */
  datatype RunError =
    | ClockOverflow                    // `datetime.now() - timedelta(days=7)` overflows
    | StoreFailed(dbError: DbError)    // sqlite3 raises
    | CollectFailed(collectError: CollectError)
    | CsvNotFound(name: string)        // `pd.read_csv` finds no such file

  datatype RunOutcome =
    | Initialized
    | AllNoted(start: string, end: string)
    | Reported(subject: string, body: ReportBody)
    | Failed(runError: RunError)

  /** The scrape range in effect. */
  datatype Range = Range(start: string, end: string)

  /** `(datetime.now() - timedelta(days=7)).strftime('%Y-%m-%d')` */
  function WeekBefore(now: Date): (r: Option<string>)
    requires Valid(now)
    ensures r.None? <==> Ordinal(now) <= 7
  {
    SubDaysOverflow(now, 7);
    match SubDays(now, 7)
    case None => None
    case Some(d) => Some(Iso(d))
  }

  /** The explicit bounds when both are given, otherwise the last seven days
      up to today. */
  function RangeOf(args: Args, now: Date): Range
    requires Valid(now) && Ordinal(now) > 7
  {
    if Given(args.startDate) && Given(args.endDate) then Range(args.startDate.value, args.endDate.value)
    else Range(WeekBefore(now).value, Iso(now))
  }

  /** `f"{school}_lessons_{start_date}_to_{end_date}.csv"`, the file the run
      reads back. */
  function CsvName(school: string, r: Range): string
  {
    school + "_lessons_" + r.start + "_to_" + r.end + ".csv"
  }

  /** A list the missing-notes query may return: the selected lessons, each
      once, in (date, time) order. */
  ghost predicate QueryResult(ls: seq<Lesson>, t: Table, school: string, cutoff: string)
  {
    SortedByDateTime(ls) && multiset(ls) == multiset(MissingAmong(t.rows, school, cutoff, t.rows.Keys))
  }

  /** What the run ends with once the report list is known. */
  function Notice(school: string, r: Range, reported: seq<ReportEntry>): RunOutcome
  {
    if reported == [] then AllNoted(r.start, r.end)
    else Reported(Subject(school, r.start, r.end), ReportOf(reported).value)
  }

  /** `main()`. Each exception ends the run with what the store holds at that
      moment: rows reconciled before a failing one stay. */
  method RunDaily(db: ReminderDb, args: Args, now: Date, sqlToday: string, portal: Portal) returns (outcome: RunOutcome)
    requires db.Valid() && Valid(now)
    modifies db
    ensures db.Valid()
    ensures args.initDb ==> outcome == Initialized && db.Contents() == CreateIfAbsent(old(db.Contents()))
    ensures !args.initDb && Ordinal(now) <= 7 ==>
      outcome == Failed(ClockOverflow) && db.Contents() == old(db.Contents())
    ensures !args.initDb && Ordinal(now) > 7 && old(db.Contents()).None? ==>
      outcome == Failed(StoreFailed(NoSuchTable)) && db.Contents() == old(db.Contents())
    ensures !args.initDb && Ordinal(now) > 7 && old(db.Contents()).Some? ==>
      var range := RangeOf(args, now);
      var c := Collect(args.school, None, Some(range.start), Some(range.end), portal);
      if c.Err? then
        outcome == Failed(CollectFailed(c.error)) && db.Contents() == old(db.Contents())
      else if c.value.fileName != CsvName(args.school, range) then
        outcome == Failed(CsvNotFound(CsvName(args.school, range))) && db.Contents() == old(db.Contents())
      else
        var o := UpsertRows(old(db.Contents()).value, args.school, c.value.rows, sqlToday);
        && db.Contents() == Some(o.table)
        && (o.error.Some? ==> outcome == Failed(StoreFailed(o.error.value)))
        && (o.error.None? ==>
              exists missing :: QueryResult(missing, o.table, args.school, WeekBefore(now).value)
                && outcome == Notice(args.school, range, Selected(missing)))
  {
    if args.initDb {
      db.InitializeDb();
      return Initialized;
    }
    SubDaysOverflow(now, 7);
    var week := SubDays(now, 7);
    if week.None? {
      return Failed(ClockOverflow);
    }
    var cutoff := Iso(week.value);
    var before := db.LessonsWithoutNotes(args.school, cutoff);
    if before.Err? {
      return Failed(StoreFailed(before.error));
    }
    var start, end;
    if Given(args.startDate) && Given(args.endDate) {
      start, end := args.startDate.value, args.endDate.value;
    } else {
      start, end := cutoff, Iso(now);
    }
    var range := Range(start, end);
    var scrape := ScrapeLessons(args.school, None, Some(start), Some(end), portal);
    if scrape.Err? {
      return Failed(CollectFailed(scrape.error));
    }
    var csv := CsvName(args.school, range);
    if scrape.value.fileName != csv {
      return Failed(CsvNotFound(csv));
    }
    var err := db.Reconcile(args.school, scrape.value.rows, sqlToday);
    if err.Some? {
      return Failed(StoreFailed(err.value));
    }
    var missing := db.LessonsWithoutNotes(args.school, cutoff);
    var reported := SelectForReport(missing.value);
    assert QueryResult(missing.value, db.Contents().value, args.school, cutoff);
    if reported == [] {
      return AllNoted(start, end);
    }
    var body := SendEmailReport(reported);
    outcome := Reported(Subject(args.school, start, end), body.value);
  }

  /** With the default range (the last seven days up to today) the scrape can
      only fail on a schedule that does not load, and it writes the very file
      the run reads back. */
  lemma DefaultRangeReadsBack(args: Args, now: Date, portal: Portal)
    requires Valid(now) && Ordinal(now) > 7 && !(Given(args.startDate) && Given(args.endDate))
    ensures var range := RangeOf(args, now);
      var c := Collect(args.school, None, Some(range.start), Some(range.end), portal);
      && (c.Err? ==> c.error.ScheduleUnavailable?)
      && (c.Ok? ==> c.value.fileName == CsvName(args.school, range))
  {
    SubDaysOverflow(now, 7);
    var w := SubDays(now, 7).value;
    assert RangeOf(args, now) == Range(Iso(w), Iso(now));
    CollectFileName(args.school, w, now, portal);
  }

  /** Explicit bounds written as `strftime` writes them, start first, are read
      back from the file the scrape wrote; an end before the start fails in
      the scrape. */
  lemma ExplicitRangeReadsBack(args: Args, now: Date, start: Date, end: Date, portal: Portal)
    requires Valid(now) && Ordinal(now) > 7 && Valid(start) && Valid(end)
    requires args.startDate == Some(Iso(start)) && args.endDate == Some(Iso(end))
    ensures var range := RangeOf(args, now);
      var c := Collect(args.school, None, Some(range.start), Some(range.end), portal);
      && (Ordinal(start) <= Ordinal(end) && c.Ok? ==> c.value.fileName == CsvName(args.school, range))
      && (Before(end, start) ==> c == Err(NoDates))
  {
    assert |Iso(start)| == 10 && |Iso(end)| == 10;
    CollectFileName(args.school, start, end, portal);
  }

  /** The reported entries are exactly the stored lessons the query selects
      (this school, no note, on or after the cutoff) that are neither admin
      time nor group lessons, in date and time order. */
  lemma ReportedEntries(missing: seq<Lesson>, t: Table, school: string, cutoff: string, e: ReportEntry)
    requires QueryResult(missing, t, school, cutoff)
    ensures e in Selected(missing) <==>
      exists k :: k in t.rows && IsMissing(t.rows[k], school, cutoff)
        && KeepInReport(LessonOf(k, t.rows[k])) && EntryOf(LessonOf(k, t.rows[k])) == e
    ensures var r := Selected(missing);
      forall a, b :: 0 <= a < b < |r| ==> EntryLe(r[a], r[b])
  {
    SelectedMembers(missing, e);
    SelectedKeepsOrder(missing);
    var m := MissingAmong(t.rows, school, cutoff, t.rows.Keys);
    assert forall l :: l in missing <==> l in m by {
      forall l
        ensures l in missing <==> l in m
      {
        assert l in missing <==> l in multiset(missing);
        assert l in m <==> l in multiset(m);
      }
    }
  }

  /** A lesson the collector scraped with two or more student names is a
      group lesson: it never reaches the report. */
  lemma GroupLessonsNotReported(names: seq<string>, l: Lesson)
    requires |names| >= 2 && l.students == StudentsText(names)
    ensures !KeepInReport(l)
  {
    StudentsComma(names);
  }
}
