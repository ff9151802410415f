/** `CalendarCardComponent`: the week calendar of the selected sections, with one event per
    meeting day and an orange preview of the hovered section, and the course-information
    lines of the registration form, laid out eight to a page. */
module Calendar {
  import opened Seqs
  import opened JsText
  import opened Catalog
  import opened SemesterPlanner

  // ---------------------------------------------------------------- events

  /** A calendar event of section `meta` on day letter `day`, from `startTime` to `endTime`
      (`HHMM`); `hover` is the orange colour given to a hovered section. The dates built
      from these are left out. */
  datatype Event = Event(day: char, startTime: int, endTime: int, title: string, hover: bool, meta: Section)

  /** The events of one meeting, one per day letter. */
  function ScheduleEvents(s: Section, schedule: Schedule, hover: bool): seq<Event> {
    seq(|schedule.days|, d requires 0 <= d < |schedule.days| =>
      Event(schedule.days[d], schedule.startTime, schedule.endTime, s.title, hover, s))
  }

  /** The number of day letters of the meetings. */
  function DayCount(schedules: seq<Schedule>): nat {
    if schedules == [] then 0 else DayCount(schedules[..|schedules| - 1]) + |schedules[|schedules| - 1].days|
  }

  /** The events of the meetings of `s`, meeting by meeting. */
  function SchedulesEvents(s: Section, schedules: seq<Schedule>, hover: bool): (r: seq<Event>)
    ensures |r| == DayCount(schedules)
  {
    if schedules == [] then []
    else SchedulesEvents(s, schedules[..|schedules| - 1], hover) + ScheduleEvents(s, schedules[|schedules| - 1], hover)
  }

  /** The number of day letters of all meetings of all sections. */
  function TotalDays(sections: seq<Section>): nat {
    if sections == [] then 0 else TotalDays(sections[..|sections| - 1]) + DayCount(sections[|sections| - 1].schedules)
  }

  /** The events `generateEvents` makes, section by section: one per meeting day, each
      showing a section that has a meeting day. */
  function EventsOf(sections: seq<Section>, hover: bool): (r: seq<Event>)
    ensures |r| == TotalDays(sections)
  {
    if sections == [] then []
    else
      var last := sections[|sections| - 1];
      EventsOf(sections[..|sections| - 1], hover) + SchedulesEvents(last, last.schedules, hover)
  }

  /** Every event of a section's meetings shows that section, with its title. */
  lemma {:induction false} SchedulesEventsMeta(s: Section, schedules: seq<Schedule>, hover: bool)
    ensures forall k :: 0 <= k < |SchedulesEvents(s, schedules, hover)| ==>
              var e := SchedulesEvents(s, schedules, hover)[k]; e.meta == s && e.hover == hover && e.title == s.title
    decreases |schedules|
  {
    if schedules != [] {
      SchedulesEventsMeta(s, schedules[..|schedules| - 1], hover);
    }
  }

  /** Every event shows one of the sections, one that has a meeting day. */
  lemma {:induction false} EventsOfMeta(sections: seq<Section>, hover: bool)
    ensures forall k :: 0 <= k < |EventsOf(sections, hover)| ==>
              var e := EventsOf(sections, hover)[k];
              e.meta in sections && e.hover == hover && DayCount(e.meta.schedules) > 0
    decreases |sections|
  {
    if sections != [] {
      var init := sections[..|sections| - 1];
      var last := sections[|sections| - 1];
      EventsOfMeta(init, hover);
      SchedulesEventsMeta(last, last.schedules, hover);
      var r := EventsOf(sections, hover);
      var n := |EventsOf(init, hover)|;
      forall k | 0 <= k < |r|
        ensures r[k].meta in sections && r[k].hover == hover && DayCount(r[k].meta.schedules) > 0
      {
        if k < n {
          assert r[k] == EventsOf(init, hover)[k];
          assert r[k].meta in init;
        } else {
          assert r[k] == SchedulesEvents(last, last.schedules, hover)[k - n];
        }
      }
    }
  }

  /** The number of sections without a meeting day, which `generateEvents` reports as not
      shown. */
  function NotShown(sections: seq<Section>): (r: nat)
    ensures r <= |sections|
  {
    if sections == [] then 0
    else NotShown(sections[..|sections| - 1]) + (if DayCount(sections[|sections| - 1].schedules) == 0 then 1 else 0)
  }

  /** A section with a meeting day has an event; with `EventsOfMeta`, the sections
      `NotShown` counts are exactly those without one. */
  lemma {:induction false} SectionShown(sections: seq<Section>, hover: bool, i: nat)
    requires i < |sections| && DayCount(sections[i].schedules) > 0
    ensures exists k :: 0 <= k < |EventsOf(sections, hover)| && EventsOf(sections, hover)[k].meta == sections[i]
    decreases |sections|
  {
    var init := sections[..|sections| - 1];
    var r := EventsOf(sections, hover);
    if i < |sections| - 1 {
      SectionShown(init, hover, i);
      var k :| 0 <= k < |EventsOf(init, hover)| && EventsOf(init, hover)[k].meta == init[i];
      assert r[k] == EventsOf(init, hover)[k];
    } else {
      var mine := SchedulesEvents(sections[i], sections[i].schedules, hover);
      SchedulesEventsMeta(sections[i], sections[i].schedules, hover);
      assert r[|EventsOf(init, hover)|] == mine[0];
    }
  }

  /** The events of `sections + [s]` are those of `sections` followed by those of `s`. */
  lemma EventsOfAppend(sections: seq<Section>, s: Section, hover: bool)
    ensures EventsOf(sections + [s], hover) == EventsOf(sections, hover) + EventsOf([s], hover)
  {
    assert (sections + [s])[..|sections|] == sections;
    assert [s][..0] == [];
  }

  /** The calendar's events after one more hovered section. */
  lemma HoverAppend(sections: seq<Section>, hovered: seq<Section>, s: Section)
    ensures EventsOf(sections, false) + EventsOf(hovered, true) + EventsOf([s], true)
            == EventsOf(sections, false) + EventsOf(hovered + [s], true)
  {
    EventsOfAppend(hovered, s, true);
    AppendAssoc(EventsOf(sections, false), EventsOf(hovered, true), EventsOf([s], true));
  }

  /** The events that do not show section `x`. */
  function NotOf(x: Section): Event -> bool {
    (e: Event) => e.meta != x
  }

  /** The sections other than `x`. */
  function Other(x: Section): Section -> bool {
    (s: Section) => s != x
  }

  /** A section's own events survive dropping `x` exactly when it is not `x`. */
  lemma FilterOwnEvents(s: Section, x: Section, hover: bool)
    ensures Filter(SchedulesEvents(s, s.schedules, hover), NotOf(x))
            == if s != x then SchedulesEvents(s, s.schedules, hover) else []
  {
    SchedulesEventsMeta(s, s.schedules, hover);
    if s != x {
      FilterAll(SchedulesEvents(s, s.schedules, hover), NotOf(x));
    } else {
      FilterNone(SchedulesEvents(s, s.schedules, hover), NotOf(x));
    }
  }

  /** Filtering a sequence ending in `last`. */
  lemma FilterLast<T>(init: seq<T>, last: T, p: T -> bool)
    ensures Filter(init + [last], p) == Filter(init, p) + (if p(last) then [last] else [])
  {
    FilterAppend(init, [last], p);
    assert [last][1..] == [];
  }

  /** Dropping the events of section `x` is computing the events without `x`. */
  lemma {:induction false} FilterEvents(sections: seq<Section>, x: Section, hover: bool)
    ensures Filter(EventsOf(sections, hover), NotOf(x)) == EventsOf(Filter(sections, Other(x)), hover)
    decreases |sections|
  {
    if sections != [] {
      var init := sections[..|sections| - 1];
      var last := sections[|sections| - 1];
      assert sections == init + [last];
      FilterEvents(init, x, hover);
      FilterAppend(EventsOf(init, hover), SchedulesEvents(last, last.schedules, hover), NotOf(x));
      FilterOwnEvents(last, x, hover);
      FilterLast(init, last, Other(x));
      if last != x {
        EventsOfAppend(Filter(init, Other(x)), last, hover);
      } else {
        assert Filter(init, Other(x)) + [] == Filter(init, Other(x));
      }
    }
  }

  /** The counter of the source's loop for `sections[..i]` and one more section: how many of
      them have no meeting day. */
  lemma NotShownStep(sections: seq<Section>, i: nat)
    requires i < |sections|
    ensures NotShown(sections[..i + 1])
            == NotShown(sections[..i]) + (if DayCount(sections[i].schedules) == 0 then 1 else 0)
  {
    assert sections[..i + 1][..i] == sections[..i];
  }

  /** `generateEvents(sections, color)`: the events, and how many sections produced none. */
  method GenerateEvents(sections: seq<Section>, hover: bool) returns (events: seq<Event>, nSectionsNotShown: nat)
    ensures events == EventsOf(sections, hover)
    ensures nSectionsNotShown == NotShown(sections)
  {
    events := [];
    nSectionsNotShown := 0;
    for i := 0 to |sections|
      invariant events == EventsOf(sections[..i], hover)
      invariant nSectionsNotShown == NotShown(sections[..i])
    {
      var generatedEventTime;
      events, generatedEventTime := PushSectionEvents(events, sections[i], hover);
      assert sections[..i + 1][..i] == sections[..i];
      NotShownStep(sections, i);
      if !generatedEventTime {
        nSectionsNotShown := nSectionsNotShown + 1;
      }
    }
    assert sections[..|sections|] == sections;
  }

  /** One round of `generateEvents`' loop: the events of `section` pushed after `before`,
      and whether there was any. */
  method PushSectionEvents(before: seq<Event>, section: Section, hover: bool)
    returns (events: seq<Event>, generatedEventTime: bool)
    ensures events == before + SchedulesEvents(section, section.schedules, hover)
    ensures generatedEventTime <==> DayCount(section.schedules) > 0
  {
    events := before;
    generatedEventTime := false;
    for j := 0 to |section.schedules|
      invariant events == before + SchedulesEvents(section, section.schedules[..j], hover)
      invariant generatedEventTime <==> DayCount(section.schedules[..j]) > 0
    {
      var schedule := section.schedules[j];
      assert section.schedules[..j + 1][..j] == section.schedules[..j];
      ghost var done := SchedulesEvents(section, section.schedules[..j], hover);
      var any;
      events, any := PushScheduleEvents(events, section, schedule, hover);
      generatedEventTime := generatedEventTime || any;
      AppendAssoc(before, done, ScheduleEvents(section, schedule, hover));
    }
    assert section.schedules[..|section.schedules|] == section.schedules;
  }

  /** The inner loop of `generateEvents`: one event per day letter of `schedule`, and whether
      there was any. */
  method PushScheduleEvents(before: seq<Event>, section: Section, schedule: Schedule, hover: bool)
    returns (events: seq<Event>, any: bool)
    ensures events == before + ScheduleEvents(section, schedule, hover)
    ensures any <==> |schedule.days| > 0
  {
    events := before;
    any := false;
    ghost var target := ScheduleEvents(section, schedule, hover);
    for d := 0 to |schedule.days|
      invariant events == before + target[..d]
      invariant any <==> d > 0
    {
      events := events + [Event(schedule.days[d], schedule.startTime, schedule.endTime, section.title, hover, section)];
      any := true;
      assert target[..d + 1] == target[..d] + [target[d]];
    }
    assert target[..|schedule.days|] == target;
  }

  // ---------------------------------------------------------------- registration form lines

  /** `CourseInfoLine`: one line of the registration form's course table. */
  datatype CourseInfoLine = CourseInfoLine(
    crn: string, prefix: string, courseNo: string, sec: string, courseTitle: string,
    days: string, time: (string, string), crs: string)

  const BlankLine: CourseInfoLine := CourseInfoLine("", "", "", "", "", "", ("", ""), "")

  /** The credits column: the credit hours when the minimum and maximum agree, else blank. */
  function Credits(creditHours: (int, int)): (r: string)
    ensures r != "" <==> creditHours.0 == creditHours.1
    ensures r != "" ==> ToNumber(r) == Int(creditHours.0)
  {
    ToNumberOfToString(creditHours.0);
    if creditHours.0 == creditHours.1 then IntToString(creditHours.0) else ""
  }

  /** The first line of a section, before its first meeting is filled in. */
  function FirstLine(s: Section, courses: seq<Course>, subjects: seq<Subject>): CourseInfoLine
    requires SectionLinked(s, courses, subjects)
  {
    var course := courses[s.course.value];
    CourseInfoLine(IntToString(s.crn), subjects[course.subject.value].code, IntToString(course.course),
                   s.section, s.title, "", ("", ""), Credits(s.creditHours))
  }

  /** `line` with the days and times of a meeting. */
  function WithMeeting(line: CourseInfoLine, schedule: Schedule): CourseInfoLine {
    line.(days := schedule.days, time := (IntToString(schedule.startTime), IntToString(schedule.endTime)))
  }

  /** The lines of one section, as `generateCourseInfoLines` builds them. */
  function SectionLines(s: Section, courses: seq<Course>, subjects: seq<Subject>): seq<CourseInfoLine>
    requires SectionLinked(s, courses, subjects)
  {
    var first := FirstLine(s, courses, subjects);
    if s.schedules == [] then [first]
    else seq(|s.schedules|, k requires 0 <= k < |s.schedules| =>
           WithMeeting(if k == 0 then first else BlankLine, s.schedules[k]))
  }

  /** A section has one line per meeting, or a single line without meetings; the first
      names the section (number, subject prefix, course number, title, credits), the others
      carry a meeting's days and times alone. */
  lemma SectionLinesShape(s: Section, courses: seq<Course>, subjects: seq<Subject>)
    requires SectionLinked(s, courses, subjects)
    ensures var r := SectionLines(s, courses, subjects);
      && |r| == (if s.schedules == [] then 1 else |s.schedules|)
      && r[0].crn == IntToString(s.crn) && r[0].sec == s.section && r[0].courseTitle == s.title
      && r[0].courseNo == IntToString(courses[s.course.value].course)
      && r[0].prefix == subjects[courses[s.course.value].subject.value].code
      && r[0].crs == Credits(s.creditHours)
      && (s.schedules == [] ==> r[0].days == "" && r[0].time == ("", ""))
    ensures var r := SectionLines(s, courses, subjects);
      forall k :: 0 <= k < |s.schedules| ==>
        r[k].days == s.schedules[k].days
        && r[k].time == (IntToString(s.schedules[k].startTime), IntToString(s.schedules[k].endTime))
    ensures var r := SectionLines(s, courses, subjects);
      forall k :: 1 <= k < |r| ==>
        r[k].crn == "" && r[k].prefix == "" && r[k].courseNo == "" && r[k].sec == "" && r[k].courseTitle == ""
        && r[k].crs == ""
  {
  }

  /** All sections are linked to a course and a subject. */
  predicate AllLinked(sections: seq<Section>, courses: seq<Course>, subjects: seq<Subject>) {
    forall i :: 0 <= i < |sections| ==> SectionLinked(sections[i], courses, subjects)
  }

  /** The lines `generateCourseInfoLines` makes, section by section. */
  function CourseInfoLines(sections: seq<Section>, courses: seq<Course>, subjects: seq<Subject>): seq<CourseInfoLine>
    requires AllLinked(sections, courses, subjects)
  {
    if sections == [] then []
    else CourseInfoLines(sections[..|sections| - 1], courses, subjects)
         + SectionLines(sections[|sections| - 1], courses, subjects)
  }

  /** The number of lines a section takes: its meetings, and at least one. */
  function LineCount(sections: seq<Section>): nat {
    if sections == [] then 0
    else LineCount(sections[..|sections| - 1]) + (if sections[|sections| - 1].schedules == [] then 1 else |sections[|sections| - 1].schedules|)
  }

  /** The form has one line per meeting, and one for each section without meetings, so at
      least one line per section. */
  lemma {:induction false} CourseInfoLineCount(sections: seq<Section>, courses: seq<Course>, subjects: seq<Subject>)
    requires AllLinked(sections, courses, subjects)
    ensures |CourseInfoLines(sections, courses, subjects)| == LineCount(sections) >= |sections|
    decreases |sections|
  {
    if sections != [] {
      var init := sections[..|sections| - 1];
      assert AllLinked(init, courses, subjects) by {
        forall i | 0 <= i < |init| ensures SectionLinked(init[i], courses, subjects) {
          assert init[i] == sections[i];
        }
      }
      CourseInfoLineCount(init, courses, subjects);
      SectionLinesShape(sections[|sections| - 1], courses, subjects);
    }
  }

  /** The page a line is drawn on and its height there. */
  datatype Placement = Placement(page: nat, y: int, line: CourseInfoLine)

  /** The pages of the form: one blank page without lines, else one per started group of
      eight lines. */
  function PageCount(lines: nat): (r: nat)
    ensures r >= 1
    ensures lines > 0 ==> (r - 1) * 8 < lines <= r * 8
  {
    if lines == 0 then 1 else (lines + 7) / 8
  }

  /** Line `i` goes on page `i / 8`, 24 points below the previous line, from height 540. */
  function PlacementOf(i: nat, line: CourseInfoLine): Placement {
    Placement(i / 8, 540 - 24 * (i % 8), line)
  }

  /** Every line lands on an existing page, at a height between 372 and 540, so a page holds
      at most eight lines; the last page is not empty. */
  lemma PlacementBounds(n: nat, i: nat, line: CourseInfoLine)
    requires i < n
    ensures PlacementOf(i, line).page < PageCount(n)
    ensures 372 <= PlacementOf(i, line).y <= 540
    ensures (PageCount(n) - 1) * 8 < n
  {
  }

  /** The arithmetic of one line of `fillRegFormCourseInfo`'s loop. */
  lemma PageStep(i: nat)
    ensures i % 8 == 0 ==> (i + 8) / 8 == (i + 7) / 8 + 1 && i / 8 == (i + 7) / 8
    ensures i % 8 != 0 ==> (i + 8) / 8 == (i + 7) / 8 && i / 8 == (i + 7) / 8 - 1
    ensures (i + 1) % 8 != 0 ==> (i + 1) % 8 == i % 8 + 1
  {
    var q, r := i / 8, i % 8;
    assert i == 8 * q + r;
    assert i + 7 == 8 * q + (r + 7) && i + 8 == 8 * (q + 1) + r;
    if r == 7 {
      assert i + 1 == 8 * (q + 1);
    } else {
      assert i + 1 == 8 * q + (r + 1);
    }
  }

  /** `fillRegFormCourseInfo`'s page breaks: the pages added and where each line is drawn. */
  method FillRegFormCourseInfo(lines: seq<CourseInfoLine>) returns (pages: nat, drawn: seq<Placement>)
    ensures pages == PageCount(|lines|)
    ensures |drawn| == |lines| && forall i :: 0 <= i < |lines| ==> drawn[i] == PlacementOf(i, lines[i])
  {
    drawn := [];
    if |lines| == 0 {
      pages := 1;
      return;
    }
    pages := 0;
    var y := 0;
    for i := 0 to |lines|
      invariant pages == (i + 7) / 8 && |drawn| == i
      invariant i % 8 != 0 ==> y == 540 - 24 * (i % 8)
      invariant forall k :: 0 <= k < i ==> drawn[k] == PlacementOf(k, lines[k])
    {
      PageStep(i);
      if i % 8 == 0 {
        pages := pages + 1;
        y := 540;
      }
      drawn := drawn + [Placement(pages - 1, y, lines[i])];
      y := y - 24;
    }
  }

  /** The line of a section's `j`th meeting. */
  lemma SectionLineAt(s: Section, courses: seq<Course>, subjects: seq<Subject>, j: nat)
    requires SectionLinked(s, courses, subjects) && j < |s.schedules|
    ensures |SectionLines(s, courses, subjects)| == |s.schedules|
    ensures SectionLines(s, courses, subjects)[j]
            == WithMeeting(if j == 0 then FirstLine(s, courses, subjects) else BlankLine, s.schedules[j])
  {
  }

  /** One round of `generateCourseInfoLines`' loop: the lines of `section` pushed after
      `before`. */
  method PushSectionLines(before: seq<CourseInfoLine>, section: Section, courses: seq<Course>, subjects: seq<Subject>)
    returns (lines: seq<CourseInfoLine>)
    requires SectionLinked(section, courses, subjects)
    ensures lines == before + SectionLines(section, courses, subjects)
  {
    lines := before;
    var line := FirstLine(section, courses, subjects);
    if section.schedules == [] {
      lines := lines + [line];
      return;
    }
    ghost var target := SectionLines(section, courses, subjects);
    for j := 0 to |section.schedules|
      invariant |target| == |section.schedules|
      invariant lines == before + target[..j]
      invariant line == if j == 0 then FirstLine(section, courses, subjects) else BlankLine
    {
      var schedule := section.schedules[j];
      SectionLineAt(section, courses, subjects, j);
      line := WithMeeting(line, schedule);
      lines := lines + [line];
      assert target[..j + 1] == target[..j] + [line];
      line := BlankLine;
    }
    assert target[..|section.schedules|] == target;
  }

  // ---------------------------------------------------------------- the component

  class CalendarCard {
    var events: seq<Event>
    var sections: seq<Section>
    var hoverSection: Option<Section>
    var nSectionsNotShown: nat
    /** `undefined` until a term is chosen. */
    var semester: Option<string>
    var year: int
    /** How many times the calendar was asked to redraw. */
    var refreshes: nat
    /** The sections whose orange events are still shown. */
    ghost var hovered: seq<Section>
    const planner: SemesterPlannerService

    /** The events are those of the selection followed by the orange events of the sections
        hovered since; a hovered section is never selected. */
    ghost predicate Valid()
      reads this
    {
      && events == EventsOf(sections, false) + EventsOf(hovered, true)
      && (hoverSection.Some? ==> hoverSection.value !in sections)
    }

    constructor(planner: SemesterPlannerService)
      ensures Valid() && this.planner == planner
      ensures events == [] && sections == [] && hoverSection == None && nSectionsNotShown == 0
      ensures semester == None && year == 0 && refreshes == 0
    {
      this.planner := planner;
      events, sections, hoverSection, nSectionsNotShown := [], [], None, 0;
      semester, year, refreshes := None, 0, 0;
      hovered := [];
    }

    /** The term chosen in the semester planner. */
    method SemesterChosen(semester: string, year: int)
      modifies this
      ensures this.semester == Some(semester) && this.year == year
      ensures events == old(events) && sections == old(sections) && hoverSection == old(hoverSection)
      ensures nSectionsNotShown == old(nSectionsNotShown) && refreshes == old(refreshes) && hovered == old(hovered)
    {
      this.semester := Some(semester);
      this.year := year;
    }

    /** `removeSection`: the section is clicked in the planner, which removes a selected one. */
    method RemoveSection(s: Section)
      modifies planner, planner.storage
      ensures planner.sections == Clicked(old(planner.sections), s)
      ensures planner.storage.store == old(planner.storage.store)[CrnsKey := Crns(planner.sections)]
      ensures planner.casts == old(planner.casts) + [Cast.SectionsUpdate(planner.sections)]
      ensures planner.hoverSection == old(planner.hoverSection) && planner.semester == old(planner.semester)
                && planner.year == old(planner.year)
    {
      planner.SectionClick(s);
    }

    /** `sectionsUpdate(sections)`: the selection's events replace all events; a hovered
        section that is now selected is no longer hovered. */
    method SectionsUpdate(sections: seq<Section>)
      modifies this
      ensures Valid() && this.sections == sections && hovered == []
      ensures events == EventsOf(sections, false) && nSectionsNotShown == NotShown(sections)
      ensures hoverSection == if old(hoverSection).Some? && old(hoverSection).value in sections then None
                              else old(hoverSection)
      ensures refreshes == old(refreshes) + 1
      ensures semester == old(semester) && year == old(year)
    {
      this.sections := sections;
      if hoverSection.Some? && hoverSection.value in sections {
        hoverSection := None;
      }
      var generated, nNotShown := GenerateEvents(this.sections, false);
      events := generated;
      nSectionsNotShown := nNotShown;
      hovered := [];
      refreshes := refreshes + 1;
    }

    /** `hoverSectionEnter(section)`: an unselected section's events are added in orange; a
        selected one changes nothing. */
    method HoverSectionEnter(section: Section)
      requires Valid()
      modifies this
      ensures Valid() && sections == old(sections)
      ensures events == old(events) + (if section in sections then [] else EventsOf([section], true))
      ensures hoverSection == if section in sections then old(hoverSection) else Some(section)
      ensures refreshes == old(refreshes) + (if section in sections then 0 else 1)
      ensures nSectionsNotShown == old(nSectionsNotShown) && semester == old(semester) && year == old(year)
    {
      if section in sections {
        assert events + [] == events;
      } else {
        ShowHovered(section);
      }
    }

    /** `hoverSectionEnter` on an unselected section: its orange events are added and it is
        the hovered section. */
    method ShowHovered(section: Section)
      requires Valid() && section !in sections
      modifies this
      ensures Valid() && sections == old(sections) && hovered == old(hovered) + [section]
      ensures events == old(events) + EventsOf([section], true)
      ensures hoverSection == Some(section) && refreshes == old(refreshes) + 1
      ensures nSectionsNotShown == old(nSectionsNotShown) && semester == old(semester) && year == old(year)
    {
      var generated, _ := GenerateEvents([section], true);
      HoverAppend(sections, hovered, section);
      events := events + generated;
      hovered := hovered + [section];
      hoverSection := Some(section);
      refreshes := refreshes + 1;
    }

    /** `hoverSectionLeave`: the hovered section's events are removed, all others kept in
        order, and nothing is hovered. */
    method HoverSectionLeave()
      requires Valid()
      modifies this
      ensures Valid() && sections == old(sections) && hoverSection == None
      ensures old(hoverSection).None? ==> events == old(events) && refreshes == old(refreshes)
      ensures old(hoverSection).Some? ==>
                events == Filter(old(events), NotOf(old(hoverSection).value)) && refreshes == old(refreshes) + 1
      ensures nSectionsNotShown == old(nSectionsNotShown) && semester == old(semester) && year == old(year)
    {
      if hoverSection.Some? {
        var h := hoverSection.value;
        FilterAppend(EventsOf(sections, false), EventsOf(hovered, true), NotOf(h));
        FilterEvents(sections, h, false);
        FilterAll(sections, Other(h));
        FilterEvents(hovered, h, true);
        events := Filter(events, NotOf(h));
        hovered := Filter(hovered, Other(h));
        hoverSection := None;
        refreshes := refreshes + 1;
      }
    }

    /** `generateCourseInfoLines`: the registration-form lines of the selection. */
    method GenerateCourseInfoLines(courses: seq<Course>, subjects: seq<Subject>) returns (lines: seq<CourseInfoLine>)
      requires AllLinked(sections, courses, subjects)
      ensures lines == CourseInfoLines(sections, courses, subjects)
    {
      lines := [];
      for i := 0 to |sections|
        invariant AllLinked(sections[..i], courses, subjects)
        invariant lines == CourseInfoLines(sections[..i], courses, subjects)
      {
        assert sections[..i + 1][..i] == sections[..i];
        assert AllLinked(sections[..i + 1], courses, subjects);
        lines := PushSectionLines(lines, sections[i], courses, subjects);
      }
      assert sections[..|sections|] == sections;
    }
  }
}
