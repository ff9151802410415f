/** `SectionTableCardComponent`: one table row per catalog section, with its times split from
    the `HHMM` integers into minutes and `HH:MM` text, early and late times flagged, the
    building label, and the sort key of each column; and the mouse-over report. */
module SectionTable {
  import opened Seqs
  import opened JsText
  import opened Catalog

  /** A meeting as the table shows it; `startTimeDark` is the `'darkred'` colour. */
  datatype RowSchedule = RowSchedule(
    days: string, startTime: string, endTime: string, building: string, room: string,
    startTimeDark: bool, endTimeDark: bool, startTimeMinutes: int, endTimeMinutes: int)

  /** `SectionTableRow`, without the enrolment colour. */
  datatype Row = Row(
    index: nat, semester: string, campus: string, crn: int, subject: string, courseNumber: int,
    title: string, instructor: string, section: string, schedules: seq<RowSchedule>,
    cap: (int, int), creditHours: (int, int), tags: seq<string>, session: string)

  // ---------------------------------------------------------------- times

  /** The hour of an `HHMM` time: `Math.floor(t / 100)`. */
  function Hour(t: int): (r: int)
    ensures 0 <= t ==> r * 100 + Minute(t) == t
  {
    t / 100
  }

  /** The minute of an `HHMM` time: JavaScript's `t % 100`. */
  function Minute(t: int): (r: int)
    ensures 0 <= t ==> 0 <= r < 100
    ensures t < 0 ==> -100 < r <= 0
  {
    JsRem(t, 100)
  }

  /** `hour * 60 + minute`. */
  function Minutes(t: int): int { Hour(t) * 60 + Minute(t) }

  /** `sprintf('%02d:%02d', hour, minute)`. */
  function TimeText(t: int): string { Pad2(Hour(t)) + ":" + Pad2(Minute(t)) }

  /** Outside 8:00 to 17:00, both ends excluded. */
  predicate Dark(t: int) { t <= 800 || 1700 <= t }

  /** A time `h:m` written as `HHMM` gives `h * 60 + m` minutes. */
  lemma MinutesOfClock(h: nat, m: nat)
    requires m < 100
    ensures Minutes(h * 100 + m) == h * 60 + m
  {
    assert (h * 100 + m) / 100 == h;
    assert (h * 100 + m) % 100 == m;
  }

  /** On valid clock times (minute below 60), minutes keep the order of the `HHMM` integers,
      so sorting by either gives the same order. */
  lemma MinutesMonotone(t1: int, t2: int)
    requires 0 <= t1 <= t2 && t1 % 100 < 60 && t2 % 100 < 60
    ensures Minutes(t1) <= Minutes(t2)
  {
    var h1, m1, h2, m2 := t1 / 100, t1 % 100, t2 / 100, t2 % 100;
    assert t1 == h1 * 100 + m1 && t2 == h2 * 100 + m2;
    MinutesOfClock(h1, m1);
    MinutesOfClock(h2, m2);
    if h1 < h2 {
      assert h1 * 60 + 60 <= h2 * 60;
    }
  }

  /** A time before 100:00 prints as five characters: two hour digits, ':' and two minute
      digits, reading back as the hour and the minute. */
  lemma TimeTextDigits(t: int)
    requires 0 <= t < 10000
    ensures var r := TimeText(t); |r| == 5 && r[2] == ':'
    ensures var r := TimeText(t); IsDigit(r[0]) && IsDigit(r[1]) && IsDigit(r[3]) && IsDigit(r[4])
    ensures var r := TimeText(t); DigitsValue(r[..2]) == t / 100 && DigitsValue(r[3..]) == t % 100
  {
    var r := TimeText(t);
    assert r[..2] == Pad2(Hour(t)) && r[3..] == Pad2(Minute(t));
  }

  lemma NineThirty()
    ensures TimeText(930) == "09:30" && Minutes(930) == 570
  {
    assert Pad2(9) == "09";
    assert Pad2(30) == NatToString(30) == "30";
  }

  /** The building column: a building's code, a name as given, or nothing. */
  function BuildingLabel(p: Place): string {
    match p
    case AtBuilding(b) => b.code
    case PlaceName(name) => name
    case NoPlace => ""
  }

  /** The row form of one meeting. */
  function RowScheduleOf(s: Schedule): RowSchedule {
    RowSchedule(s.days, TimeText(s.startTime), TimeText(s.endTime), BuildingLabel(s.building), s.room,
                Dark(s.startTime), Dark(s.endTime), Minutes(s.startTime), Minutes(s.endTime))
  }

  /** A tag as the tag filter sees it: lower-case code and name. */
  function TagText(t: Tag): string {
    ToLower(t.code) + " - " + ToLower(t.name)
  }

  /** The row `extractSectionData` builds for the section at `index`. */
  function RowOf(s: Section, courses: seq<Course>, subjects: seq<Subject>, index: nat): (r: Row)
    requires SectionLinked(s, courses, subjects)
  {
    var course := courses[s.course.value];
    Row(index, s.semester, s.campus, s.crn, subjects[course.subject.value].code, course.course, s.title,
        if s.instructor.Some? then s.instructor.value.name else "", s.section,
        seq(|s.schedules|, k requires 0 <= k < |s.schedules| => RowScheduleOf(s.schedules[k])),
        s.cap, s.creditHours,
        seq(|course.tags|, k requires 0 <= k < |course.tags| => TagText(course.tags[k])),
        if s.session.Some? then s.session.value else "")
  }

  /** `extractSectionData`'s loop over the schedules. */
  method ExtractSchedules(schedules: seq<Schedule>) returns (r: seq<RowSchedule>)
    ensures |r| == |schedules| && forall k :: 0 <= k < |r| ==> r[k] == RowScheduleOf(schedules[k])
  {
    r := [];
    for m := 0 to |schedules|
      invariant |r| == m && forall k :: 0 <= k < m ==> r[k] == RowScheduleOf(schedules[k])
    {
      var row := RowScheduleOf(schedules[m]);
      r := r + [row];
      assert r[m] == row;
    }
  }

  /** `extractSectionData`, with the row's index set afterwards. */
  method ExtractSectionData(s: Section, courses: seq<Course>, subjects: seq<Subject>, index: nat) returns (r: Row)
    requires SectionLinked(s, courses, subjects)
    ensures r == RowOf(s, courses, subjects, index)
  {
    var course := courses[s.course.value];
    var schedules := ExtractSchedules(s.schedules);
    r := Row(index, s.semester, s.campus, s.crn, subjects[course.subject.value].code, course.course, s.title,
             if s.instructor.Some? then s.instructor.value.name else "", s.section, schedules,
             s.cap, s.creditHours,
             seq(|course.tags|, k requires 0 <= k < |course.tags| => TagText(course.tags[k])),
             if s.session.Some? then s.session.value else "");
  }

  // ---------------------------------------------------------------- sorting

  /** A sort key: a number, a string, a ratio `num / den` with `den != 0`, or `Infinity`. */
  datatype SortKey = Number(n: int) | Text(s: string) | Ratio(num: int, den: int) | Infinity

  /** The earliest start of the meetings, if there is one. */
  function EarliestStart(schedules: seq<RowSchedule>): (r: Option<int>)
    ensures r.None? <==> schedules == []
    ensures r.Some? ==> exists k :: 0 <= k < |schedules| && schedules[k].startTimeMinutes == r.value
    ensures r.Some? ==> forall k :: 0 <= k < |schedules| ==> r.value <= schedules[k].startTimeMinutes
  {
    if schedules == [] then None
    else
      var rest := EarliestStart(schedules[1..]);
      if rest.Some? && rest.value < schedules[0].startTimeMinutes then rest
      else Some(schedules[0].startTimeMinutes)
  }

  /** `sortingDataAccessor(row, property)`. */
  function SortingDataAccessor(row: Row, property: string): (r: SortKey)
    ensures property == "times" ==> (r == Infinity <==> row.schedules == [])
    ensures property == "times" && r.Number? ==> r.n == EarliestStart(row.schedules).value
    ensures property == "enroll" ==> (r == Infinity <==> row.cap.1 == 0)
    ensures property !in {"crn", "subject", "course", "title", "instructor", "times", "enroll", "creditHours"} ==>
              r == Number(0)
  {
    match property
    case "crn" => Number(row.crn)
    case "subject" => Text(row.subject)
    case "course" => Number(row.courseNumber)
    case "title" => Text(row.title)
    case "instructor" => Text(row.instructor)
    case "times" =>
      var earliest := EarliestStart(row.schedules);
      if earliest.Some? then Number(earliest.value) else Infinity
    case "enroll" => if row.cap.1 == 0 then Infinity else Ratio(row.cap.0, row.cap.1)
    case "creditHours" => Number(row.creditHours.0 * 100 + row.creditHours.1)
    case _ => Number(0)
  }

  /** For credit hours below 100, the `creditHours` key orders rows by minimum, then maximum. */
  lemma CreditHoursKeyOrder(a: (int, int), b: (int, int))
    requires 0 <= a.1 < 100 && 0 <= b.1 < 100
    ensures a.0 * 100 + a.1 < b.0 * 100 + b.1 <==> a.0 < b.0 || (a.0 == b.0 && a.1 < b.1)
  {
    if a.0 < b.0 {
      assert a.0 * 100 + 100 <= b.0 * 100;
    } else if a.0 > b.0 {
      assert b.0 * 100 + 100 <= a.0 * 100;
    }
  }

  // ---------------------------------------------------------------- the component

  class SectionTableCard {
    var rows: seq<Row>
    var mouseoverIndex: int
    /** The indices cast as `mouseover`. */
    var casts: seq<int>
    var currentTimestamp: int
    var updateTimestamp: int

    constructor()
      ensures rows == [] && mouseoverIndex == 0 && casts == [] && currentTimestamp == 0 && updateTimestamp == 0
    {
      rows, mouseoverIndex, casts, currentTimestamp, updateTimestamp := [], 0, [], 0, 0;
    }

    /** `courseDataUpdateAvailable`. */
    method CourseDataUpdateAvailable(timestamp: int)
      modifies this
      ensures updateTimestamp == timestamp
      ensures rows == old(rows) && mouseoverIndex == old(mouseoverIndex) && casts == old(casts)
      ensures currentTimestamp == old(currentTimestamp)
    {
      updateTimestamp := timestamp;
    }

    /** `courseDataReady`: one row per catalog section, in pool order, carrying its position. */
    method CourseDataReady(sections: seq<Section>, courses: seq<Course>, subjects: seq<Subject>, timestamp: int)
      requires forall i :: 0 <= i < |sections| ==> SectionLinked(sections[i], courses, subjects)
      modifies this
      ensures currentTimestamp == timestamp && |rows| == |sections|
      ensures forall i :: 0 <= i < |rows| ==> rows[i] == RowOf(sections[i], courses, subjects, i)
      ensures forall i :: 0 <= i < |rows| ==> rows[i].index == i && rows[i].crn == sections[i].crn
      ensures mouseoverIndex == old(mouseoverIndex) && casts == old(casts) && updateTimestamp == old(updateTimestamp)
    {
      currentTimestamp := timestamp;
      rows := [];
      for i := 0 to |sections|
        invariant currentTimestamp == timestamp && |rows| == i
        invariant mouseoverIndex == old(mouseoverIndex) && casts == old(casts) && updateTimestamp == old(updateTimestamp)
        invariant forall k :: 0 <= k < i ==> rows[k] == RowOf(sections[k], courses, subjects, k)
      {
        var row := ExtractSectionData(sections[i], courses, subjects, i);
        rows := rows + [row];
      }
    }

    /** `mouseover(index)`: reported only when the index changes. */
    method Mouseover(index: int)
      modifies this
      ensures mouseoverIndex == index
      ensures casts == old(casts) + (if index == old(mouseoverIndex) then [] else [index])
      ensures rows == old(rows) && currentTimestamp == old(currentTimestamp) && updateTimestamp == old(updateTimestamp)
    {
      if index == mouseoverIndex {
        return;
      }
      mouseoverIndex := index;
      casts := casts + [index];
    }
  }
}
