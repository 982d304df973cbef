/** The missing-notes report of run_daily.py: the filter applied to the
    query's rows (run_daily.py:262-281), the grouping of `send_email_report`
    by date and instructor (run_daily.py:73-117) and the mail's subject
    (run_daily.py:143). */
module Report {
  import opened Wrappers
  import opened Text
  import opened Store

  /** One lesson as the report holds it (the dict built at run_daily.py:276-282). */
  datatype ReportEntry = ReportEntry(
    date: string, time: string, instructor: string, students: string, lessonType: string)

  /** The report leaves out admin time and group lessons (a non-empty
      `students` with a comma in it). */
  predicate KeepInReport(l: Lesson)
  {
    l.lessonType != "Admin Time" && !(l.students != [] && ',' in l.students)
  }

  function EntryOf(l: Lesson): ReportEntry
  {
    ReportEntry(l.date, l.time, l.instructor, l.students, l.lessonType)
  }

  /** The filtered report list, in the order of the query. */
  function Selected(ls: seq<Lesson>): seq<ReportEntry>
  {
    if ls == [] then []
    else
      var last := ls[|ls| - 1];
      Selected(ls[..|ls| - 1]) + if KeepInReport(last) then [EntryOf(last)] else []
  }

  /** The filter loop of run_daily.py:262-281. */
  method SelectForReport(ls: seq<Lesson>) returns (r: seq<ReportEntry>)
    ensures r == Selected(ls)
  {
    r := [];
    for n := 0 to |ls|
      invariant r == Selected(ls[..n])
    {
      assert ls[..n + 1][..n] == ls[..n];
      if ls[n].lessonType == "Admin Time" {
        continue;
      }
      if ls[n].students != [] && ',' in ls[n].students {
        continue;
      }
      r := r + [EntryOf(ls[n])];
    }
    assert ls[..|ls|] == ls;
  }

  /** An entry is in the report list exactly when a kept lesson gave it. */
  lemma {:induction false} SelectedMembers(ls: seq<Lesson>, e: ReportEntry)
    ensures e in Selected(ls) <==> exists l :: l in ls && KeepInReport(l) && EntryOf(l) == e
  {
    if ls != [] {
      var init, last := ls[..|ls| - 1], ls[|ls| - 1];
      assert ls == init + [last];
      SelectedMembers(init, e);
      if e in Selected(ls) && e !in Selected(init) {
        assert KeepInReport(last) && EntryOf(last) == e;
      }
      if exists l :: l in ls && KeepInReport(l) && EntryOf(l) == e {
        var l :| l in ls && KeepInReport(l) && EntryOf(l) == e;
        if l != last {
          assert l in init;
        }
      }
    }
  }

  /** Order by (date, time), as the query returned the lessons. */
  predicate EntryLe(a: ReportEntry, b: ReportEntry)
  {
    LexLt(a.date, b.date) || (a.date == b.date && LexLe(a.time, b.time))
  }

  /** Filtering keeps the query's (date, time) order. */
  lemma {:induction false} SelectedKeepsOrder(ls: seq<Lesson>)
    requires SortedByDateTime(ls)
    ensures forall a, b :: 0 <= a < b < |Selected(ls)| ==> EntryLe(Selected(ls)[a], Selected(ls)[b])
  {
    if ls != [] {
      var init, last := ls[..|ls| - 1], ls[|ls| - 1];
      SelectedKeepsOrder(init);
      var s := Selected(init);
      if KeepInReport(last) {
        forall a | 0 <= a < |s|
          ensures EntryLe(s[a], EntryOf(last))
        {
          SelectedMembers(init, s[a]);
          var l :| l in init && KeepInReport(l) && EntryOf(l) == s[a];
          var j :| 0 <= j < |init| && init[j] == l;
          assert ls[j] == l;
        }
      }
    }
  }

  // ---- send_email_report ----------------------------------------------

  /** What the grouped dict keeps of a lesson: `time`, `students`,
      `lesson_type`. */
  datatype Detail = Detail(time: string, students: string, lessonType: string)

  function DetailOf(e: ReportEntry): Detail
  {
    Detail(e.time, e.students, e.lessonType)
  }

  /** A table row is rebuilt from the date and instructor keys and a detail. */
  function RowOf(date: string, instructor: string, x: Detail): ReportEntry
  {
    ReportEntry(date, x.time, instructor, x.students, x.lessonType)
  }

  /** The lines of the plain-text body. */
  datatype PlainLine = Intro | DateLine(date: string) | InstructorLine(instructor: string)
    | LessonLine(detail: Detail) | BlankLine

  function LineText(l: PlainLine): string
  {
    match l
    case Intro => "This report lists all lessons with missing notes.\n"
    case DateLine(d) => "Date: " + d + "\n"
    case InstructorLine(i) => "Instructor: " + i + "\n"
    case LessonLine(x) => "  " + x.time + " - " + x.students + " (" + x.lessonType + ")\n"
    case BlankLine => "\n"
  }

  /** The plain body: the lines joined with no separator. */
  function PlainText(lines: seq<PlainLine>): string
  {
    if lines == [] then "" else PlainText(lines[..|lines| - 1]) + LineText(lines[|lines| - 1])
  }

  /** One `<tr>` of the HTML table. */
  function RowHtml(e: ReportEntry): string
  {
    "<tr><td>" + e.date + "</td><td>" + e.instructor + "</td><td>" + e.time
      + "</td><td>" + e.students + "</td><td>" + e.lessonType + "</td></tr>"
  }

  /** The plain lines and the table rows of a report. */
  datatype ReportBody = ReportBody(lines: seq<PlainLine>, rows: seq<ReportEntry>)

  /** The two keys the report groups by. */
  datatype Field = DateKey | InstructorKey

  function KeyOf(e: ReportEntry, key: Field): string
  {
    match key
    case DateKey => e.date
    case InstructorKey => e.instructor
  }

  /** The entries whose key is `k`, in order. */
  function FilterKey(es: seq<ReportEntry>, key: Field, k: string): seq<ReportEntry>
  {
    if es == [] then []
    else
      var last := es[|es| - 1];
      FilterKey(es[..|es| - 1], key, k) + if KeyOf(last, key) == k then [last] else []
  }

  /** The key of every entry, in order. */
  function KeysOf(es: seq<ReportEntry>, key: Field): seq<string>
  {
    if es == [] then [] else KeysOf(es[..|es| - 1], key) + [KeyOf(es[|es| - 1], key)]
  }

  lemma {:induction false} KeysOfAt(es: seq<ReportEntry>, key: Field)
    ensures |KeysOf(es, key)| == |es|
    ensures forall j :: 0 <= j < |es| ==> KeysOf(es, key)[j] == KeyOf(es[j], key)
  {
    if es != [] {
      KeysOfAt(es[..|es| - 1], key);
    }
  }

  /** The keys in order of first appearance: the key order of a Python dict
      built by inserting them. */
  function Dedup(xs: seq<string>): seq<string>
  {
    if xs == [] then []
    else
      var d := Dedup(xs[..|xs| - 1]);
      if xs[|xs| - 1] in d then d else d + [xs[|xs| - 1]]
  }

  /** Each key once, and nothing else. */
  lemma {:induction false} DedupOnce(xs: seq<string>)
    ensures forall y :: y in Dedup(xs) <==> y in xs
    ensures forall y :: multiset(Dedup(xs))[y] == if y in xs then 1 else 0
  {
    if xs != [] {
      var init, x := xs[..|xs| - 1], xs[|xs| - 1];
      assert xs == init + [x];
      DedupOnce(init);
    }
  }

  predicate TextSorted(s: seq<string>)
  {
    forall a, b :: 0 <= a < b < |s| ==> LexLe(s[a], s[b])
  }

  function InsertText(s: seq<string>, x: string): seq<string>
  {
    if s == [] then [x]
    else if LexLe(x, s[0]) then [x] + s
    else [s[0]] + InsertText(s[1..], x)
  }

  lemma TextSortedCons(h: string, s: seq<string>)
    requires TextSorted(s) && forall b :: 0 <= b < |s| ==> LexLe(h, s[b])
    ensures TextSorted([h] + s)
  {
  }

  lemma HeadBelowInsertedText(s: seq<string>, x: string, tail: seq<string>)
    requires s != [] && TextSorted(s) && LexLe(s[0], x)
    requires multiset(tail) == multiset(s[1..]) + multiset{x}
    ensures forall b :: 0 <= b < |tail| ==> LexLe(s[0], tail[b])
  {
    forall b | 0 <= b < |tail|
      ensures LexLe(s[0], tail[b])
    {
      assert tail[b] in multiset(tail);
      if tail[b] != x {
        assert tail[b] in multiset(s[1..]);
        var j :| 0 <= j < |s[1..]| && s[1..][j] == tail[b];
        assert s[j + 1] == tail[b];
      }
    }
  }

  lemma {:induction false} InsertTextSorted(s: seq<string>, x: string)
    requires TextSorted(s)
    ensures TextSorted(InsertText(s, x)) && multiset(InsertText(s, x)) == multiset(s) + multiset{x}
  {
    if s == [] {
    } else if LexLe(x, s[0]) {
      forall b | 0 < b < |s| { LexLeTrans(x, s[0], s[b]); }
      TextSortedCons(x, s);
    } else {
      LexLeTotal(x, s[0]);
      InsertTextSorted(s[1..], x);
      var tail := InsertText(s[1..], x);
      HeadBelowInsertedText(s, x, tail);
      TextSortedCons(s[0], tail);
      assert s == [s[0]] + s[1..];
    }
  }

  /** Python's `sorted` on text (insertion sort; the result is what matters). */
  function SortText(xs: seq<string>): seq<string>
  {
    if xs == [] then [] else InsertText(SortText(xs[..|xs| - 1]), xs[|xs| - 1])
  }

  /** `sorted` returns its input in code-point order. */
  lemma {:induction false} SortTextSorted(xs: seq<string>)
    ensures TextSorted(SortText(xs)) && multiset(SortText(xs)) == multiset(xs)
  {
    if xs != [] {
      assert xs == xs[..|xs| - 1] + [xs[|xs| - 1]];
      SortTextSorted(xs[..|xs| - 1]);
      InsertTextSorted(SortText(xs[..|xs| - 1]), xs[|xs| - 1]);
    }
  }

  /** The instructors with a lesson on `date`, in order of first appearance. */
  function InstructorsOn(es: seq<ReportEntry>, date: string): seq<string>
  {
    Dedup(KeysOf(FilterKey(es, DateKey, date), InstructorKey))
  }

  /** The list kept under `report_content[date][instructor]`. */
  function Group(es: seq<ReportEntry>, date: string, instructor: string): seq<Detail>
  {
    if es == [] then []
    else
      var last := es[|es| - 1];
      Group(es[..|es| - 1], date, instructor)
        + if last.date == date && last.instructor == instructor then [DetailOf(last)] else []
  }

  function LessonLines(g: seq<Detail>): seq<PlainLine>
  {
    if g == [] then [] else LessonLines(g[..|g| - 1]) + [LessonLine(g[|g| - 1])]
  }

  function GroupRows(date: string, instructor: string, g: seq<Detail>): seq<ReportEntry>
  {
    if g == [] then [] else GroupRows(date, instructor, g[..|g| - 1]) + [RowOf(date, instructor, g[|g| - 1])]
  }

  /** The lines for one date's instructors `is`. */
  function InstructorLines(es: seq<ReportEntry>, date: string, names: seq<string>): seq<PlainLine>
  {
    if names == [] then []
    else
      var i := names[|names| - 1];
      InstructorLines(es, date, names[..|names| - 1])
        + [InstructorLine(i)] + LessonLines(Group(es, date, i)) + [BlankLine]
  }

  function InstructorRows(es: seq<ReportEntry>, date: string, names: seq<string>): seq<ReportEntry>
  {
    if names == [] then []
    else
      var i := names[|names| - 1];
      InstructorRows(es, date, names[..|names| - 1]) + GroupRows(date, i, Group(es, date, i))
  }

  /** The lines for the dates `ds`, each with its instructors in sorted order. */
  function DayLines(es: seq<ReportEntry>, ds: seq<string>): seq<PlainLine>
  {
    if ds == [] then []
    else
      var d := ds[|ds| - 1];
      DayLines(es, ds[..|ds| - 1]) + [DateLine(d)] + InstructorLines(es, d, SortText(InstructorsOn(es, d)))
  }

  function DayRows(es: seq<ReportEntry>, ds: seq<string>): seq<ReportEntry>
  {
    if ds == [] then []
    else
      var d := ds[|ds| - 1];
      DayRows(es, ds[..|ds| - 1]) + InstructorRows(es, d, SortText(InstructorsOn(es, d)))
  }

  /** The dates of the report, sorted. */
  function ReportDates(es: seq<ReportEntry>): seq<string>
  {
    SortText(Dedup(KeysOf(es, DateKey)))
  }

  /** What `send_email_report` puts in the mail, or `None` when the list is
      empty and it returns without sending. */
  function ReportOf(es: seq<ReportEntry>): Option<ReportBody>
  {
    if es == [] then None
    else Some(ReportBody([Intro] + DayLines(es, ReportDates(es)), DayRows(es, ReportDates(es))))
  }

  lemma {:induction false} FilterKeyMembers(es: seq<ReportEntry>, key: Field, k: string)
    ensures forall x :: x in FilterKey(es, key, k) <==> x in es && KeyOf(x, key) == k
  {
    if es != [] {
      assert es == es[..|es| - 1] + [es[|es| - 1]];
      FilterKeyMembers(es[..|es| - 1], key, k);
    }
  }

  lemma {:induction false} KeysOfMembers(es: seq<ReportEntry>, key: Field)
    ensures forall x :: x in es ==> KeyOf(x, key) in KeysOf(es, key)
  {
    KeysOfAt(es, key);
    forall x | x in es
      ensures KeyOf(x, key) in KeysOf(es, key)
    {
      var j :| 0 <= j < |es| && es[j] == x;
      assert KeysOf(es, key)[j] == KeyOf(x, key);
    }
  }

  lemma {:induction false} GroupMembers(es: seq<ReportEntry>, date: string, instructor: string)
    ensures forall x :: x in Group(es, date, instructor) ==>
      exists e :: e in es && e.date == date && e.instructor == instructor && DetailOf(e) == x
  {
    if es != [] {
      var init, last := es[..|es| - 1], es[|es| - 1];
      assert es == init + [last];
      GroupMembers(init, date, instructor);
    }
  }

  /** A date has instructors only when some entry has that date, and an
      instructor has lessons on a date only when listed among its
      instructors. */
  lemma GroupListed(es: seq<ReportEntry>, date: string, instructor: string)
    ensures InstructorsOn(es, date) != [] ==> date in KeysOf(es, DateKey)
    ensures Group(es, date, instructor) != [] ==> instructor in InstructorsOn(es, date)
  {
    var f := FilterKey(es, DateKey, date);
    FilterKeyMembers(es, DateKey, date);
    KeysOfMembers(es, DateKey);
    if InstructorsOn(es, date) != [] {
      var y := InstructorsOn(es, date)[0];
      DedupOnce(KeysOf(f, InstructorKey));
      assert y in KeysOf(f, InstructorKey);
      KeysOfAt(f, InstructorKey);
      assert f[0] in f;
    }
    if Group(es, date, instructor) != [] {
      GroupMembers(es, date, instructor);
      assert Group(es, date, instructor)[0] in Group(es, date, instructor);
      var e :| e in es && e.date == date && e.instructor == instructor;
      KeysOfMembers(f, InstructorKey);
      assert e in f;
      DedupOnce(KeysOf(f, InstructorKey));
    }
  }

  /** How one more entry extends the keys, the per-date lists and the groups. */
  lemma AppendEntry(p: seq<ReportEntry>, e: ReportEntry)
    ensures KeysOf(p + [e], DateKey) == KeysOf(p, DateKey) + [e.date]
    ensures forall d :: FilterKey(p + [e], DateKey, d) == FilterKey(p, DateKey, d) + if e.date == d then [e] else []
    ensures forall d, i ::
      Group(p + [e], d, i) == Group(p, d, i) + if e.date == d && e.instructor == i then [DetailOf(e)] else []
  {
    assert (p + [e])[..|p|] == p;
  }

  lemma DedupAppend(xs: seq<string>, x: string)
    ensures Dedup(xs + [x]) == if x in Dedup(xs) then Dedup(xs) else Dedup(xs) + [x]
  {
    assert (xs + [x])[..|xs|] == xs;
  }

  lemma InstructorsAfter(p: seq<ReportEntry>, e: ReportEntry, d: string)
    ensures d != e.date ==> InstructorsOn(p + [e], d) == InstructorsOn(p, d)
    ensures InstructorsOn(p + [e], e.date) ==
      if e.instructor in InstructorsOn(p, e.date) then InstructorsOn(p, e.date)
      else InstructorsOn(p, e.date) + [e.instructor]
  {
    var fp := KeysOf(FilterKey(p, DateKey, e.date), InstructorKey);
    AppendEntry(p, e);
    if d != e.date {
      assert FilterKey(p + [e], DateKey, d) == FilterKey(p, DateKey, d);
    }
    var fe := FilterKey(p + [e], DateKey, e.date);
    assert fe == FilterKey(p, DateKey, e.date) + [e];
    assert fe[..|fe| - 1] == FilterKey(p, DateKey, e.date);
    assert KeysOf(fe, InstructorKey) == fp + [e.instructor];
    DedupAppend(fp, e.instructor);
  }

  /** The three dicts of the grouping loop: the nested lists, the date keys
      in insertion order and, per date, its instructor keys in insertion
      order. */
  datatype Grouping = Grouping(content: map<string, map<string, seq<Detail>>>,
                               dateOrder: seq<string>, instructorOrder: map<string, seq<string>>)

  /** One pass of the grouping loop for `e`: add the date key and the
      instructor key when they are new, then append the lesson's detail. */
  function AddEntry(g: Grouping, e: ReportEntry): Grouping
  {
    var g1 := if e.date in g.content then g
      else Grouping(g.content[e.date := map[]], g.dateOrder + [e.date], g.instructorOrder[e.date := []]);
    var known := if e.date in g1.instructorOrder then g1.instructorOrder[e.date] else [];
    var g2 := if e.instructor in g1.content[e.date] then g1
      else Grouping(g1.content[e.date := g1.content[e.date][e.instructor := []]], g1.dateOrder,
                    g1.instructorOrder[e.date := known + [e.instructor]]);
    g2.(content := g2.content[e.date := g2.content[e.date][e.instructor := g2.content[e.date][e.instructor] + [DetailOf(e)]]])
  }

  /** The dicts after the grouping loop has seen `es`. */
  function Grouped(es: seq<ReportEntry>): Grouping
  {
    if es == [] then Grouping(map[], [], map[]) else AddEntry(Grouped(es[..|es| - 1]), es[|es| - 1])
  }

  /** The date keys are the entries' dates, in order of first appearance. */
  lemma {:induction false} GroupedDates(es: seq<ReportEntry>)
    ensures Grouped(es).dateOrder == Dedup(KeysOf(es, DateKey))
    ensures forall d :: d in Grouped(es).content <==> d in KeysOf(es, DateKey)
  {
    if es != [] {
      var init, e := es[..|es| - 1], es[|es| - 1];
      assert es == init + [e];
      GroupedDates(init);
      AppendEntry(init, e);
      DedupOnce(KeysOf(init, DateKey));
      DedupAppend(KeysOf(init, DateKey), e.date);
    }
  }

  /** Under each date, the instructor keys are that day's instructors, in
      order of first appearance. */
  lemma {:induction false} GroupedInstructors(es: seq<ReportEntry>, d: string)
    requires d in Grouped(es).content
    ensures d in Grouped(es).instructorOrder && Grouped(es).instructorOrder[d] == InstructorsOn(es, d)
    ensures forall i :: i in Grouped(es).content[d] <==> i in InstructorsOn(es, d)
  {
    var init, e := es[..|es| - 1], es[|es| - 1];
    assert es == init + [e];
    GroupedDates(init);
    InstructorsAfter(init, e, d);
    if d in Grouped(init).content {
      GroupedInstructors(init, d);
    } else {
      GroupListed(init, d, e.instructor);
    }
  }

  /** One pass of the grouping loop appends the entry's detail to its own
      list and leaves the other lists as they were (new ones empty). */
  lemma AddEntryContent(g: Grouping, e: ReportEntry, d: string, i: string)
    requires d in AddEntry(g, e).content && i in AddEntry(g, e).content[d]
    ensures AddEntry(g, e).content[d][i] ==
      (if d in g.content && i in g.content[d] then g.content[d][i] else [])
      + (if e.date == d && e.instructor == i then [DetailOf(e)] else [])
  {
  }

  /** Each list holds the details of that date's and instructor's lessons,
      in the order given. */
  lemma {:induction false} GroupedLists(es: seq<ReportEntry>, d: string, i: string)
    requires d in Grouped(es).content && i in Grouped(es).content[d]
    ensures Grouped(es).content[d][i] == Group(es, d, i)
  {
    var init, e := es[..|es| - 1], es[|es| - 1];
    assert es == init + [e];
    var g := Grouped(init);
    AddEntryContent(g, e, d, i);
    AppendEntry(init, e);
    if d in g.content && i in g.content[d] {
      GroupedLists(init, d, i);
    } else {
      assert Group(init, d, i) == [] by {
        GroupedDates(init);
        GroupListed(init, d, i);
        if d in g.content {
          GroupedInstructors(init, d);
        }
      }
    }
  }

  /** The grouping loop of `send_email_report` (run_daily.py:80-92). The
      dicts keep their keys in insertion order, as Python's do: the date keys
      are the dates in order of first appearance, each date's instructor keys
      its instructors in order of first appearance, and each list the details
      of that date's and instructor's lessons in the order given. */
  method GroupLessons(es: seq<ReportEntry>)
    returns (content: map<string, map<string, seq<Detail>>>, dateOrder: seq<string>,
             instructorOrder: map<string, seq<string>>)
    ensures dateOrder == Dedup(KeysOf(es, DateKey))
    ensures forall d :: d in content <==> d in KeysOf(es, DateKey)
    ensures forall d :: d in content ==>
      && d in instructorOrder && instructorOrder[d] == InstructorsOn(es, d)
      && (forall i :: i in content[d] <==> i in InstructorsOn(es, d))
    ensures forall d, i :: d in content && i in content[d] ==> content[d][i] == Group(es, d, i)
  {
    content, dateOrder, instructorOrder := map[], [], map[];
    for n := 0 to |es|
      invariant Grouping(content, dateOrder, instructorOrder) == Grouped(es[..n])
    {
      var e := es[n];
      assert es[..n + 1][..n] == es[..n];
      if e.date !in content {
        content := content[e.date := map[]];
        dateOrder := dateOrder + [e.date];
        instructorOrder := instructorOrder[e.date := []];
      } else {
        GroupedInstructors(es[..n], e.date);
      }
      if e.instructor !in content[e.date] {
        content := content[e.date := content[e.date][e.instructor := []]];
        instructorOrder := instructorOrder[e.date := instructorOrder[e.date] + [e.instructor]];
      }
      content := content[e.date := content[e.date][e.instructor := content[e.date][e.instructor] + [DetailOf(e)]]];
    }
    assert es[..|es|] == es;
    GroupedDates(es);
    forall d | d in content
      ensures d in instructorOrder && instructorOrder[d] == InstructorsOn(es, d)
      ensures forall i :: i in content[d] <==> i in InstructorsOn(es, d)
    {
      GroupedInstructors(es, d);
    }
    forall d, i | d in content && i in content[d]
      ensures content[d][i] == Group(es, d, i)
    {
      GroupedLists(es, d, i);
    }
  }

  lemma WholeSlice<T>(s: seq<T>)
    ensures s[..|s|] == s
  {
  }

  /** One more date, instructor or lesson extends the lines and rows; `pre`
      and `rowsPre` are what came before them. */
  lemma DayStep(es: seq<ReportEntry>, ds: seq<string>, a: nat, pre: seq<PlainLine>)
    requires a < |ds|
    ensures pre + DayLines(es, ds[..a + 1]) == pre + DayLines(es, ds[..a]) + [DateLine(ds[a])]
      + InstructorLines(es, ds[a], SortText(InstructorsOn(es, ds[a])))
    ensures DayRows(es, ds[..a + 1]) == DayRows(es, ds[..a])
      + InstructorRows(es, ds[a], SortText(InstructorsOn(es, ds[a])))
  {
    assert ds[..a + 1][..a] == ds[..a];
    var il := InstructorLines(es, ds[a], SortText(InstructorsOn(es, ds[a])));
    Assoc(pre, DayLines(es, ds[..a]) + [DateLine(ds[a])], il);
    Assoc(pre, DayLines(es, ds[..a]), [DateLine(ds[a])]);
  }

  lemma InstructorStep(es: seq<ReportEntry>, d: string, names: seq<string>, b: nat,
                       pre: seq<PlainLine>, rowsPre: seq<ReportEntry>)
    requires b < |names|
    ensures pre + InstructorLines(es, d, names[..b + 1]) == pre + InstructorLines(es, d, names[..b])
      + [InstructorLine(names[b])] + LessonLines(Group(es, d, names[b])) + [BlankLine]
    ensures rowsPre + InstructorRows(es, d, names[..b + 1]) == rowsPre + InstructorRows(es, d, names[..b])
      + GroupRows(d, names[b], Group(es, d, names[b]))
  {
    assert names[..b + 1][..b] == names[..b];
    var i := names[b];
    var il := InstructorLines(es, d, names[..b]);
    var ll := LessonLines(Group(es, d, i));
    Assoc(pre, il + [InstructorLine(i)] + ll, [BlankLine]);
    Assoc(pre, il + [InstructorLine(i)], ll);
    Assoc(pre, il, [InstructorLine(i)]);
    Assoc(rowsPre, InstructorRows(es, d, names[..b]), GroupRows(d, i, Group(es, d, i)));
  }

  lemma LessonStep(d: string, i: string, g: seq<Detail>, c: nat, pre: seq<PlainLine>, rowsPre: seq<ReportEntry>)
    requires c < |g|
    ensures pre + LessonLines(g[..c + 1]) == pre + LessonLines(g[..c]) + [LessonLine(g[c])]
    ensures rowsPre + GroupRows(d, i, g[..c + 1]) == rowsPre + GroupRows(d, i, g[..c]) + [RowOf(d, i, g[c])]
  {
    assert g[..c + 1][..c] == g[..c];
    Assoc(pre, LessonLines(g[..c]), [LessonLine(g[c])]);
    Assoc(rowsPre, GroupRows(d, i, g[..c]), [RowOf(d, i, g[c])]);
  }

  /** The lines and rows for one instructor on one date
      (run_daily.py:103-115). */
  method InstructorSection(d: string, i: string, group: seq<Detail>)
    returns (lines: seq<PlainLine>, rows: seq<ReportEntry>)
    ensures lines == [InstructorLine(i)] + LessonLines(group) + [BlankLine]
    ensures rows == GroupRows(d, i, group)
  {
    lines := [InstructorLine(i)];
    rows := [];
    for c := 0 to |group|
      invariant lines == [InstructorLine(i)] + LessonLines(group[..c])
      invariant rows == [] + GroupRows(d, i, group[..c])
    {
      LessonStep(d, i, group, c, [InstructorLine(i)], []);
      lines := lines + [LessonLine(group[c])];
      rows := rows + [RowOf(d, i, group[c])];
    }
    WholeSlice(group);
    lines := lines + [BlankLine];
  }

  /** The lines and rows for one date: its heading, then each instructor in
      sorted order (run_daily.py:100-116). */
  method DateSection(es: seq<ReportEntry>, d: string, byInstructor: map<string, seq<Detail>>,
                     instructors: seq<string>)
    returns (lines: seq<PlainLine>, rows: seq<ReportEntry>)
    requires instructors == InstructorsOn(es, d)
    requires forall i :: i in instructors ==> i in byInstructor && byInstructor[i] == Group(es, d, i)
    ensures lines == [DateLine(d)] + InstructorLines(es, d, SortText(InstructorsOn(es, d)))
    ensures rows == InstructorRows(es, d, SortText(InstructorsOn(es, d)))
  {
    lines := [DateLine(d)];
    rows := [];
    var sorted := SortText(instructors);
    SortTextSorted(instructors);
    for b := 0 to |sorted|
      invariant lines == [DateLine(d)] + InstructorLines(es, d, sorted[..b])
      invariant rows == [] + InstructorRows(es, d, sorted[..b])
    {
      var i := sorted[b];
      assert i in multiset(sorted);
      InstructorStep(es, d, sorted, b, [DateLine(d)], []);
      var sectionLines, sectionRows := InstructorSection(d, i, byInstructor[i]);
      Assoc(lines, [InstructorLine(i)] + LessonLines(Group(es, d, i)), [BlankLine]);
      Assoc(lines, [InstructorLine(i)], LessonLines(Group(es, d, i)));
      lines := lines + sectionLines;
      rows := rows + sectionRows;
    }
    WholeSlice(sorted);
  }

  /** `send_email_report` (run_daily.py:73-117) up to the mail itself: nothing
      for an empty list; otherwise the grouping, then each date in sorted
      order, giving the plain lines and the table rows. */
  method SendEmailReport(es: seq<ReportEntry>) returns (r: Option<ReportBody>)
    ensures r == ReportOf(es)
  {
    if es == [] {
      return None;
    }
    var content, dateOrder, instructorOrder := GroupLessons(es);
    var dates := SortText(dateOrder);
    var lines := [Intro];
    var rows: seq<ReportEntry> := [];
    for a := 0 to |dates|
      invariant lines == [Intro] + DayLines(es, dates[..a])
      invariant rows == DayRows(es, dates[..a])
    {
      var d := dates[a];
      DayStep(es, dates, a, [Intro]);
      SortTextSorted(dateOrder);
      assert d in multiset(dateOrder);
      DedupOnce(KeysOf(es, DateKey));
      var sectionLines, sectionRows := DateSection(es, d, content[d], instructorOrder[d]);
      Assoc(lines, [DateLine(d)], InstructorLines(es, d, SortText(InstructorsOn(es, d))));
      lines := lines + sectionLines;
      rows := rows + sectionRows;
    }
    WholeSlice(dates);
    r := Some(ReportBody(lines, rows));
  }

  // ---- what the report promises ---------------------------------------

  lemma FilterKeyAppend(xs: seq<ReportEntry>, x: ReportEntry, key: Field, k: string)
    ensures FilterKey(xs + [x], key, k) == FilterKey(xs, key, k) + if KeyOf(x, key) == k then [x] else []
  {
    assert (xs + [x])[..|xs|] == xs;
  }

  /** Every lesson of one date and instructor becomes one table row, in the
      order given. */
  lemma {:induction false} GroupRowsAreEntries(es: seq<ReportEntry>, d: string, i: string)
    ensures GroupRows(d, i, Group(es, d, i)) == FilterKey(FilterKey(es, DateKey, d), InstructorKey, i)
  {
    if es != [] {
      var init, e := es[..|es| - 1], es[|es| - 1];
      assert es == init + [e];
      GroupRowsAreEntries(init, d, i);
      var g := Group(init, d, i);
      var f := FilterKey(init, DateKey, d);
      FilterKeyAppend(init, e, DateKey, d);
      if e.date == d {
        assert FilterKey(es, DateKey, d) == f + [e];
        FilterKeyAppend(f, e, InstructorKey, i);
        if e.instructor == i {
          var g' := g + [DetailOf(e)];
          assert Group(es, d, i) == g';
          assert g'[..|g'| - 1] == g;
        } else {
          assert Group(es, d, i) == g;
          assert FilterKey(f + [e], InstructorKey, i) == FilterKey(f, InstructorKey, i);
        }
      } else {
        assert Group(es, d, i) == g;
        assert FilterKey(es, DateKey, d) == f;
      }
    }
  }

  /** The entries grouped by key, the groups in the order of `ks`. */
  function ConcatKeys(xs: seq<ReportEntry>, key: Field, ks: seq<string>): seq<ReportEntry>
  {
    if ks == [] then [] else ConcatKeys(xs, key, ks[..|ks| - 1]) + FilterKey(xs, key, ks[|ks| - 1])
  }

  lemma {:induction false} InstructorRowsAreGroups(es: seq<ReportEntry>, d: string, names: seq<string>)
    ensures InstructorRows(es, d, names) == ConcatKeys(FilterKey(es, DateKey, d), InstructorKey, names)
  {
    if names != [] {
      InstructorRowsAreGroups(es, d, names[..|names| - 1]);
      GroupRowsAreEntries(es, d, names[|names| - 1]);
    }
  }

  /** One more entry adds itself once to the grouped list when its key is
      listed once, and not at all when its key is not listed. */
  lemma {:induction false} ConcatKeysAdd(xs: seq<ReportEntry>, x: ReportEntry, key: Field, ks: seq<string>)
    requires multiset(ks)[KeyOf(x, key)] <= 1
    ensures multiset(ConcatKeys(xs + [x], key, ks))
      == multiset(ConcatKeys(xs, key, ks)) + if KeyOf(x, key) in ks then multiset{x} else multiset{}
  {
    if ks != [] {
      var init, k := ks[..|ks| - 1], ks[|ks| - 1];
      assert ks == init + [k];
      assert multiset(ks) == multiset(init) + multiset{k};
      ConcatKeysAdd(xs, x, key, init);
      FilterKeyAppend(xs, x, key, k);
    }
  }

  /** Grouping by a list of keys, each listed once and covering every
      entry's key, loses and duplicates nothing. */
  lemma {:induction false} ConcatKeysPermutation(xs: seq<ReportEntry>, key: Field, ks: seq<string>)
    requires forall k :: multiset(ks)[k] <= 1
    requires forall x :: x in xs ==> KeyOf(x, key) in ks
    ensures multiset(ConcatKeys(xs, key, ks)) == multiset(xs)
  {
    if xs == [] {
      EmptyGroups(key, ks);
    } else {
      var init, x := xs[..|xs| - 1], xs[|xs| - 1];
      assert xs == init + [x];
      ConcatKeysPermutation(init, key, ks);
      ConcatKeysAdd(init, x, key, ks);
    }
  }

  lemma {:induction false} EmptyGroups(key: Field, ks: seq<string>)
    ensures ConcatKeys([], key, ks) == []
  {
    if ks != [] {
      EmptyGroups(key, ks[..|ks| - 1]);
    }
  }

  /** One date's rows are that date's entries, rearranged. */
  lemma DateRowsPermutation(es: seq<ReportEntry>, d: string)
    ensures multiset(InstructorRows(es, d, SortText(InstructorsOn(es, d)))) == multiset(FilterKey(es, DateKey, d))
  {
    var f := FilterKey(es, DateKey, d);
    var names := SortText(InstructorsOn(es, d));
    InstructorRowsAreGroups(es, d, names);
    SortTextSorted(InstructorsOn(es, d));
    DedupOnce(KeysOf(f, InstructorKey));
    KeysOfMembers(f, InstructorKey);
    ConcatKeysPermutation(f, InstructorKey, names);
  }

  lemma {:induction false} DayRowsAreDateGroups(es: seq<ReportEntry>, ds: seq<string>)
    ensures multiset(DayRows(es, ds)) == multiset(ConcatKeys(es, DateKey, ds))
  {
    if ds != [] {
      DayRowsAreDateGroups(es, ds[..|ds| - 1]);
      DateRowsPermutation(es, ds[|ds| - 1]);
    }
  }

  /** The table has one row per lesson of the report list: the rows are the
      list, rearranged. */
  lemma ReportRowsArePermutation(es: seq<ReportEntry>)
    requires es != []
    ensures multiset(ReportOf(es).value.rows) == multiset(es)
  {
    var ds := ReportDates(es);
    DayRowsAreDateGroups(es, ds);
    SortTextSorted(Dedup(KeysOf(es, DateKey)));
    DedupOnce(KeysOf(es, DateKey));
    KeysOfMembers(es, DateKey);
    ConcatKeysPermutation(es, DateKey, ds);
  }

  /** Table order: by date, then by instructor. */
  predicate RowLe(a: ReportEntry, b: ReportEntry)
  {
    LexLt(a.date, b.date) || (a.date == b.date && LexLe(a.instructor, b.instructor))
  }

  predicate RowsOrdered(rows: seq<ReportEntry>)
  {
    forall a, b :: 0 <= a < b < |rows| ==> RowLe(rows[a], rows[b])
  }

  lemma OrderedAppend(xs: seq<ReportEntry>, ys: seq<ReportEntry>)
    requires RowsOrdered(xs) && RowsOrdered(ys)
    requires forall x, y :: x in xs && y in ys ==> RowLe(x, y)
    ensures RowsOrdered(xs + ys)
  {
    forall a, b | 0 <= a < b < |xs + ys|
      ensures RowLe((xs + ys)[a], (xs + ys)[b])
    {
      if b < |xs| {
      } else if a >= |xs| {
        assert (xs + ys)[a] == ys[a - |xs|] && (xs + ys)[b] == ys[b - |xs|];
      } else {
        assert (xs + ys)[a] in xs && (xs + ys)[b] in ys;
      }
    }
  }

  lemma {:induction false} GroupRowsShape(d: string, i: string, g: seq<Detail>)
    ensures forall x :: x in GroupRows(d, i, g) ==> x.date == d && x.instructor == i
    ensures RowsOrdered(GroupRows(d, i, g))
  {
    if g != [] {
      GroupRowsShape(d, i, g[..|g| - 1]);
      LexLeRefl(i);
      var rows := GroupRows(d, i, g);
      assert forall a :: 0 <= a < |rows| ==> rows[a] in rows;
    }
  }

  lemma {:induction false} InstructorRowsOrdered(es: seq<ReportEntry>, d: string, names: seq<string>)
    requires TextSorted(names)
    ensures forall x :: x in InstructorRows(es, d, names) ==> x.date == d && x.instructor in names
    ensures RowsOrdered(InstructorRows(es, d, names))
  {
    if names != [] {
      var init, i := names[..|names| - 1], names[|names| - 1];
      assert names == init + [i];
      InstructorRowsOrdered(es, d, init);
      GroupRowsShape(d, i, Group(es, d, i));
      var xs, ys := InstructorRows(es, d, init), GroupRows(d, i, Group(es, d, i));
      forall x, y | x in xs && y in ys
        ensures RowLe(x, y)
      {
        var j :| 0 <= j < |init| && init[j] == x.instructor;
        assert names[j] == x.instructor;
      }
      OrderedAppend(xs, ys);
    }
  }

  lemma {:induction false} DayRowsOrdered(es: seq<ReportEntry>, ds: seq<string>)
    requires TextSorted(ds) && forall k :: multiset(ds)[k] <= 1
    ensures forall x :: x in DayRows(es, ds) ==> x.date in ds
    ensures RowsOrdered(DayRows(es, ds))
  {
    if ds != [] {
      var init, d := ds[..|ds| - 1], ds[|ds| - 1];
      assert ds == init + [d];
      assert multiset(ds) == multiset(init) + multiset{d};
      assert forall k :: multiset(init)[k] <= multiset(ds)[k];
      DayRowsOrdered(es, init);
      var names := SortText(InstructorsOn(es, d));
      SortTextSorted(InstructorsOn(es, d));
      InstructorRowsOrdered(es, d, names);
      var xs, ys := DayRows(es, init), InstructorRows(es, d, names);
      forall x, y | x in xs && y in ys
        ensures RowLe(x, y)
      {
        var j :| 0 <= j < |init| && init[j] == x.date;
        assert ds[j] == x.date;
        assert x.date != d by {
          assert x.date in multiset(init);
        }
      }
      OrderedAppend(xs, ys);
    }
  }

  /** The table is ordered by date and, within a date, by instructor. */
  lemma ReportRowsOrdered(es: seq<ReportEntry>)
    requires es != []
    ensures RowsOrdered(ReportOf(es).value.rows)
  {
    SortTextSorted(Dedup(KeysOf(es, DateKey)));
    DedupOnce(KeysOf(es, DateKey));
    DayRowsOrdered(es, ReportDates(es));
  }

  /** The lessons listed in the plain body, in order. */
  function LessonDetails(lines: seq<PlainLine>): seq<Detail>
  {
    if lines == [] then []
    else
      var last := lines[|lines| - 1];
      LessonDetails(lines[..|lines| - 1]) + if last.LessonLine? then [last.detail] else []
  }

  function RowDetails(rows: seq<ReportEntry>): seq<Detail>
  {
    if rows == [] then [] else RowDetails(rows[..|rows| - 1]) + [DetailOf(rows[|rows| - 1])]
  }

  lemma {:induction false} LessonDetailsAppend(a: seq<PlainLine>, b: seq<PlainLine>)
    ensures LessonDetails(a + b) == LessonDetails(a) + LessonDetails(b)
  {
    if b != [] {
      assert (a + b)[..|a + b| - 1] == a + b[..|b| - 1];
      LessonDetailsAppend(a, b[..|b| - 1]);
    } else {
      assert a + b == a;
    }
  }

  lemma {:induction false} RowDetailsAppend(a: seq<ReportEntry>, b: seq<ReportEntry>)
    ensures RowDetails(a + b) == RowDetails(a) + RowDetails(b)
  {
    if b != [] {
      assert (a + b)[..|a + b| - 1] == a + b[..|b| - 1];
      RowDetailsAppend(a, b[..|b| - 1]);
    } else {
      assert a + b == a;
    }
  }

  lemma GroupDetails(d: string, i: string, g: seq<Detail>)
    ensures LessonDetails(LessonLines(g)) == g && RowDetails(GroupRows(d, i, g)) == g
  {
    LessonLinesDetails(g);
    GroupRowsDetails(d, i, g);
  }

  lemma {:induction false} LessonLinesDetails(g: seq<Detail>)
    ensures LessonDetails(LessonLines(g)) == g
  {
    if g != [] {
      var init, x := g[..|g| - 1], g[|g| - 1];
      LessonLinesDetails(init);
      LessonDetailsAppend(LessonLines(init), [LessonLine(x)]);
      assert [LessonLine(x)][..0] == [];
      assert LessonDetails([LessonLine(x)]) == [x];
      assert g == init + [x];
    }
  }

  lemma {:induction false} GroupRowsDetails(d: string, i: string, g: seq<Detail>)
    ensures RowDetails(GroupRows(d, i, g)) == g
  {
    if g != [] {
      var init, x := g[..|g| - 1], g[|g| - 1];
      GroupRowsDetails(d, i, init);
      RowDetailsAppend(GroupRows(d, i, init), [RowOf(d, i, x)]);
      assert [RowOf(d, i, x)][..0] == [];
      assert RowDetails([RowOf(d, i, x)]) == [DetailOf(RowOf(d, i, x))];
      assert g == init + [x];
    }
  }

  lemma {:induction false} InstructorDetails(es: seq<ReportEntry>, d: string, names: seq<string>)
    ensures LessonDetails(InstructorLines(es, d, names)) == RowDetails(InstructorRows(es, d, names))
  {
    if names != [] {
      var init, i := names[..|names| - 1], names[|names| - 1];
      var g := Group(es, d, i);
      InstructorDetails(es, d, init);
      GroupDetails(d, i, g);
      var il := InstructorLines(es, d, init);
      LessonDetailsAppend(il + [InstructorLine(i)] + LessonLines(g), [BlankLine]);
      LessonDetailsAppend(il + [InstructorLine(i)], LessonLines(g));
      LessonDetailsAppend(il, [InstructorLine(i)]);
      assert [BlankLine][..0] == [] && [InstructorLine(i)][..0] == [];
      RowDetailsAppend(InstructorRows(es, d, init), GroupRows(d, i, g));
    }
  }

  lemma {:induction false} DayDetails(es: seq<ReportEntry>, ds: seq<string>)
    ensures LessonDetails(DayLines(es, ds)) == RowDetails(DayRows(es, ds))
  {
    if ds != [] {
      var init, d := ds[..|ds| - 1], ds[|ds| - 1];
      var names := SortText(InstructorsOn(es, d));
      DayDetails(es, init);
      InstructorDetails(es, d, names);
      LessonDetailsAppend(DayLines(es, init) + [DateLine(d)], InstructorLines(es, d, names));
      LessonDetailsAppend(DayLines(es, init), [DateLine(d)]);
      assert [DateLine(d)][..0] == [];
      RowDetailsAppend(DayRows(es, init), InstructorRows(es, d, names));
    }
  }

  /** The plain body lists the same lessons as the table, in the same order. */
  lemma ReportLinesMatchRows(es: seq<ReportEntry>)
    requires es != []
    ensures LessonDetails(ReportOf(es).value.lines) == RowDetails(ReportOf(es).value.rows)
  {
    DayDetails(es, ReportDates(es));
    LessonDetailsAppend([Intro], DayLines(es, ReportDates(es)));
    assert [Intro][..0] == [];
  }

  // ---- the subject line -------------------------------------------------

  /** The school's name in the subject: drop `-sor`, spell out the two
      known schools, then title-case (run_daily.py:143). */
  function SchoolLabel(school: string): string
  {
    Title(Replace(Replace(Replace(school, "-sor", ""), "westu", "West U"), "theheights", "The Heights"))
  }

  function Subject(school: string, startDate: string, endDate: string): string
  {
    "Missing Notes for " + SchoolLabel(school) + " (" + startDate + " to " + endDate + ")"
  }

  /** The `-sor` suffix is dropped from a name without a dash. */
  lemma DropSor(x: string)
    requires '-' !in x
    ensures Replace(x + "-sor", "-sor", "") == x
  {
    ReplaceShort([], "-sor", "");
    forall j | 0 <= j < |x|
      ensures !OccursAt(x + "-sor" + [], "-sor", j)
    {
      var s := x + "-sor" + [];
      assert s[j] == x[j] != '-';
      assert j + 4 <= |s| ==> s[j..j + 4][0] == s[j];
    }
    ReplaceUpToMatch(x, "-sor", "", []);
    assert x + "-sor" + [] == x + "-sor";
  }

  /** The West U school's label. */
  lemma LabelWestU(school: string)
    requires school == "westu-sor"
    ensures SchoolLabel(school) == "West U"
  {
    var a := Replace(school, "-sor", "");
    assert a == "westu" by {
      assert school == "westu" + "-sor";
      DropSor("westu");
    }
    var b := Replace(a, "westu", "West U");
    assert b == "West U" by {
      ReplaceWhole("westu", "West U");
    }
    assert Replace(b, "theheights", "The Heights") == b by {
      ReplaceShort(b, "theheights", "The Heights");
    }
    TitleWestU();
  }

  lemma TitleWestU()
    ensures Title("West U") == "West U"
  {
    assert TitleCased("st U", true);
    assert TitleCased("West U", false);
    TitleFixed("West U", false);
  }

  /** The Heights school's label. */
  lemma LabelTheHeights(school: string)
    requires school == "theheights-sor"
    ensures SchoolLabel(school) == "The Heights"
  {
    var a := Replace(school, "-sor", "");
    assert a == "theheights" by {
      assert school == "theheights" + "-sor";
      DropSor("theheights");
    }
    var b := Replace(a, "westu", "West U");
    assert b == a by {
      assert 'w' !in "theheights";
      NoFirstChar("theheights", "westu");
      ReplaceAbsent("theheights", "westu", "West U");
    }
    var c := Replace(b, "theheights", "The Heights");
    assert c == "The Heights" by {
      ReplaceWhole("theheights", "The Heights");
    }
    TitleTheHeights();
  }

  lemma TitleTheHeights()
    ensures Title("The Heights") == "The Heights"
  {
    assert TitleCased("hts", true);
    assert TitleCased("eights", true);
    assert TitleCased("e Heights", true);
    assert TitleCased("The Heights", false);
    TitleFixed("The Heights", false);
  }

  /** Any other school name is only title-cased. */
  lemma LabelOtherSchool(school: string)
    requires forall i :: 0 <= i <= |school| ==>
      !OccursAt(school, "-sor", i) && !OccursAt(school, "westu", i) && !OccursAt(school, "theheights", i)
    ensures SchoolLabel(school) == Title(school)
  {
    ReplaceAbsent(school, "-sor", "");
    ReplaceAbsent(school, "westu", "West U");
    ReplaceAbsent(school, "theheights", "The Heights");
  }
}
