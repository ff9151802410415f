/** `SectionFilterCardComponent`: the options its eight filters offer, extracted from the
    catalog when it is loaded, and the row predicate it casts to the section table, built
    from the filters' `checked` flags and texts. An unchecked filter contributes the empty
    text or -1, which let every row through. */
module SectionFilter {
  import opened Seqs
  import opened JsText
  import opened Ordering
  import opened Catalog
  import opened SectionTable
  import opened SectionFilterOption

  // ---------------------------------------------------------------- options

  /** The course numbers as strings, distinct, in default `sort()` order (so "1000" comes
      before "999"). */
  function CourseNumberOptions(courses: seq<Course>): (r: seq<string>)
    ensures StrictlySorted(r, StringLess)
    ensures forall x :: x in r <==> exists k :: 0 <= k < |courses| && x == IntToString(courses[k].course)
  {
    StringLessIsOrder();
    SortedDistinct(CourseNumbers(courses), StringLess)
  }

  /** `courses.map(course => course.course.toString())`. */
  function CourseNumbers(courses: seq<Course>): (r: seq<string>)
    ensures forall x :: x in r <==> exists k :: 0 <= k < |courses| && x == IntToString(courses[k].course)
    decreases |courses|
  {
    if courses == [] then []
    else CourseNumbers(courses[..|courses| - 1]) + [IntToString(courses[|courses| - 1].course)]
  }

  /** The instructors' names of the sections, `undefined` dropped. */
  function InstructorNames(sections: seq<Section>): (r: seq<string>)
    ensures forall x :: x in r <==> exists k :: 0 <= k < |sections| && sections[k].instructor.Some? && sections[k].instructor.value.name == x
    decreases |sections|
  {
    if sections == [] then []
    else
      var last := sections[|sections| - 1];
      InstructorNames(sections[..|sections| - 1]) + (if last.instructor.Some? then [last.instructor.value.name] else [])
  }

  /** The instructor options: distinct names, sorted. */
  function InstructorOptions(sections: seq<Section>): (r: seq<string>)
    ensures StrictlySorted(r, StringLess)
    ensures forall x :: x in r <==> exists k :: 0 <= k < |sections| && sections[k].instructor.Some? && sections[k].instructor.value.name == x
  {
    StringLessIsOrder();
    SortedDistinct(InstructorNames(sections), StringLess)
  }

  /** `sections.map(s => s.creditHours).reduce((list, current) => list.concat(current), [])`. */
  function CreditHoursList(sections: seq<Section>): (r: seq<int>)
    ensures forall x :: x in r <==> exists k :: 0 <= k < |sections| && (sections[k].creditHours.0 == x || sections[k].creditHours.1 == x)
    decreases |sections|
  {
    if sections == [] then []
    else
      var last := sections[|sections| - 1];
      CreditHoursList(sections[..|sections| - 1]) + [last.creditHours.0, last.creditHours.1]
  }

  /** The credit-hour values: distinct, ascending numerically. */
  function CreditHourValues(sections: seq<Section>): (r: seq<int>)
    ensures StrictlySorted(r, IntLess)
    ensures forall x :: x in r <==> exists k :: 0 <= k < |sections| && (sections[k].creditHours.0 == x || sections[k].creditHours.1 == x)
  {
    IntLessIsOrder();
    SortedDistinct(CreditHoursList(sections), IntLess)
  }

  /** The credit-hour options: the values as strings. */
  function CreditHourOptions(sections: seq<Section>): (r: seq<string>)
    ensures |r| == |CreditHourValues(sections)|
    ensures forall k :: 0 <= k < |r| ==> ToNumber(r[k]) == Int(CreditHourValues(sections)[k])
  {
    var values := CreditHourValues(sections);
    forall k | 0 <= k < |values| ensures ToNumber(IntToString(values[k])) == Int(values[k]) {
      ToNumberOfToString(values[k]);
    }
    seq(|values|, k requires 0 <= k < |values| => IntToString(values[k]))
  }

  /** The tag options: `code - name`. */
  function TagOptions(tags: seq<Tag>): (r: seq<string>)
    ensures |r| == |tags| && forall k :: 0 <= k < |r| ==> r[k] == tags[k].code + " - " + tags[k].name
  {
    seq(|tags|, k requires 0 <= k < |tags| => tags[k].code + " - " + tags[k].name)
  }

  // ---------------------------------------------------------------- the filter

  /** The values `castFilterFn` captures. */
  datatype FilterParams = FilterParams(
    semester: string, campus: string, session: string, subject: string, courseNumber: JsNumber,
    title: string, instructor: string, tag: string, creditHour: JsNumber)

  /** A text filter's value: its lower-case text when checked, the empty text otherwise. */
  function TextParam(checked: bool, inputValue: string): string {
    if checked then ToLower(inputValue) else ""
  }

  /** A numeric filter's value: `+inputValue` when checked and not empty, -1 otherwise. */
  function NumberParam(checked: bool, inputValue: string): JsNumber {
    if checked && inputValue != "" then ToNumber(inputValue) else Int(-1)
  }

  /** The tag reduce: some tag contains the text. */
  function AnyContains(tags: seq<string>, tag: string): (r: bool)
    ensures r <==> exists k :: 0 <= k < |tags| && Contains(tags[k], tag)
    decreases |tags|
  {
    if tags == [] then false
    else AnyContains(tags[..|tags| - 1], tag) || Contains(tags[|tags| - 1], tag)
  }

  /** `courseNumber === -1 ? true : row.courseNumber === courseNumber`; NaN equals nothing. */
  predicate NumberAccepts(n: JsNumber, value: int) {
    n == Int(-1) || (n.Int? && n.i == value)
  }

  /** `creditHour === -1 ? true : row.creditHours[0] <= creditHour && creditHour <= row.creditHours[1]`. */
  predicate RangeAccepts(n: JsNumber, range: (int, int)) {
    n == Int(-1) || (n.Int? && range.0 <= n.i <= range.1)
  }

  /** The cast filter function. */
  predicate Accepts(p: FilterParams, row: Row) {
    && Contains(ToLower(row.semester), p.semester)
    && Contains(ToLower(row.campus), p.campus)
    && Contains(ToLower(row.session), p.session)
    && Contains(ToLower(row.subject), p.subject)
    && NumberAccepts(p.courseNumber, row.courseNumber)
    && Contains(ToLower(row.title), p.title)
    && Contains(ToLower(row.instructor), p.instructor)
    && (p.tag == "" || AnyContains(row.tags, p.tag))
    && RangeAccepts(p.creditHour, row.creditHours)
  }

  /** With every filter unchecked only the semester test remains. */
  lemma UncheckedAcceptsAll(semester: string, row: Row)
    ensures Accepts(FilterParams(semester, "", "", "", Int(-1), "", "", "", Int(-1)), row)
            <==> Contains(ToLower(row.semester), semester)
  {
    ContainsEmpty(ToLower(row.campus));
    ContainsEmpty(ToLower(row.session));
    ContainsEmpty(ToLower(row.subject));
    ContainsEmpty(ToLower(row.title));
    ContainsEmpty(ToLower(row.instructor));
  }

  /** A tag filter with text rejects a row without tags. */
  lemma TaglessRejected(p: FilterParams, row: Row)
    requires p.tag != "" && row.tags == []
    ensures !Accepts(p, row)
  {
  }

  /** Every digit-string course number is matched exactly. */
  lemma CourseNumberExact(p: FilterParams, row: Row, n: nat)
    requires p.courseNumber == ToNumber(IntToString(n)) && Accepts(p, row)
    ensures row.courseNumber == n
  {
    ToNumberOfToString(n);
  }

  /** A credit-hour filter `h` accepts a row iff `h` lies in its range, both ends included. */
  lemma CreditHourInclusive(p: FilterParams, row: Row, h: nat)
    requires p.creditHour == Int(h)
    ensures RangeAccepts(p.creditHour, row.creditHours) <==> row.creditHours.0 <= h <= row.creditHours.1
  {
  }

  // ---------------------------------------------------------------- the component

  /** Positions of the eight filters in `configs`. */
  const CampusAt := 0
  const SessionAt := 1
  const SubjectAt := 2
  const CourseNumberAt := 3
  const TitleAt := 4
  const InstructorAt := 5
  const TagsAt := 6
  const CreditHoursAt := 7

  class SectionFilterCard {
    /** campus, session, subject, course number, title, instructor, tags, credit hours. */
    const configs: seq<FilterConfig>
    var semester: string
    const semesterYears: array<int>
    var casts: seq<FilterParams>

    ghost predicate Valid()
      reads this
    {
      && |configs| == 8 && semesterYears.Length == 3
      && (forall i, j :: 0 <= i < j < |configs| ==> configs[i] != configs[j])
    }

    /** The campus filter starts on, with "Main Campus"; the others start off and empty. */
    constructor()
      ensures Valid() && semester == "fall" && semesterYears[..] == [2020, 2020, 2020] && casts == []
      ensures fresh(semesterYears) && forall i :: 0 <= i < |configs| ==> fresh(configs[i])
      ensures configs[CampusAt].checked && configs[CampusAt].inputValue == "Main Campus"
      ensures forall i :: 1 <= i < |configs| ==> !configs[i].checked && configs[i].inputValue == ""
    {
      var campus := new FilterConfig("???", "Campus", true, "Main Campus");
      var session := new FilterConfig("???", "Session", false, "");
      var subject := new FilterConfig("subject", "Subject", false, "");
      var courseNumber := new FilterConfig("courseNumber", "Course Number", false, "");
      var title := new FilterConfig("title", "Title", false, "");
      var instructor := new FilterConfig("instructor", "Instructor", false, "");
      var tags := new FilterConfig("???", "Tags", false, "");
      var creditHours := new FilterConfig("creditHours", "Credit Hours", false, "");
      configs := [campus, session, subject, courseNumber, title, instructor, tags, creditHours];
      semester := "fall";
      semesterYears := new int[3](_ => 2020);
      casts := [];
    }

    /** `courseDataReady`: the three years copied position by position, and every filter's
        options. */
    method CourseDataReady(years: seq<int>, campuses: seq<string>, sessions: seq<string>, subjects: seq<Subject>,
                           courses: seq<Course>, titles: seq<string>, sections: seq<Section>, tags: seq<Tag>)
      requires Valid() && |years| == 3
      modifies semesterYears, configs
      ensures Valid() && semesterYears[..] == years
      ensures configs[CampusAt].options == campuses && configs[SessionAt].options == sessions
      ensures configs[SubjectAt].options == seq(|subjects|, k requires 0 <= k < |subjects| => subjects[k].code)
      ensures configs[CourseNumberAt].options == CourseNumberOptions(courses)
      ensures configs[TitleAt].options == titles
      ensures configs[InstructorAt].options == InstructorOptions(sections)
      ensures configs[TagsAt].options == TagOptions(tags)
      ensures configs[CreditHoursAt].options == CreditHourOptions(sections)
      ensures forall i :: 0 <= i < |configs| ==>
                configs[i].checked == old(configs[i].checked) && configs[i].inputValue == old(configs[i].inputValue)
    {
      CopyYears(years);
      SetOptions(campuses, sessions, seq(|subjects|, k requires 0 <= k < |subjects| => subjects[k].code),
                 CourseNumberOptions(courses));
      SetMoreOptions(titles, InstructorOptions(sections), TagOptions(tags), CreditHourOptions(sections));
    }

    /** The options of the campus, session, subject and course-number filters. */
    method SetOptions(campuses: seq<string>, sessions: seq<string>, subjects: seq<string>, numbers: seq<string>)
      requires Valid()
      modifies configs
      ensures configs[CampusAt].options == campuses && configs[SessionAt].options == sessions
      ensures configs[SubjectAt].options == subjects && configs[CourseNumberAt].options == numbers
      ensures forall i :: CourseNumberAt < i < |configs| ==> configs[i].options == old(configs[i].options)
      ensures forall i :: 0 <= i < |configs| ==>
                configs[i].checked == old(configs[i].checked) && configs[i].inputValue == old(configs[i].inputValue)
    {
      configs[CampusAt].options := campuses;
      configs[SessionAt].options := sessions;
      configs[SubjectAt].options := subjects;
      configs[CourseNumberAt].options := numbers;
    }

    /** The options of the title, instructor, tags and credit-hour filters. */
    method SetMoreOptions(titles: seq<string>, instructors: seq<string>, tags: seq<string>, hours: seq<string>)
      requires Valid()
      modifies configs
      ensures configs[TitleAt].options == titles && configs[InstructorAt].options == instructors
      ensures configs[TagsAt].options == tags && configs[CreditHoursAt].options == hours
      ensures forall i :: 0 <= i < TitleAt ==> configs[i].options == old(configs[i].options)
      ensures forall i :: 0 <= i < |configs| ==>
                configs[i].checked == old(configs[i].checked) && configs[i].inputValue == old(configs[i].inputValue)
    {
      configs[TitleAt].options := titles;
      configs[InstructorAt].options := instructors;
      configs[TagsAt].options := tags;
      configs[CreditHoursAt].options := hours;
    }

    /** `for (let i = 0; i < 3; i++) this.semesterYears[i] = this.courseData.semesterYears[i]`. */
    method CopyYears(years: seq<int>)
      requires Valid() && |years| == 3
      modifies semesterYears
      ensures semesterYears[..] == years
    {
      for i := 0 to 3
        invariant forall k :: 0 <= k < i ==> semesterYears[k] == years[k]
      {
        semesterYears[i] := years[i];
      }
    }

    /** The values the filter function captures, read from the filters. */
    function Params(): (p: FilterParams)
      requires Valid()
      reads this, configs
      ensures !configs[CampusAt].checked ==> p.campus == ""
      ensures !configs[CourseNumberAt].checked ==> p.courseNumber == Int(-1)
      ensures !configs[TagsAt].checked ==> p.tag == ""
      ensures !configs[CreditHoursAt].checked ==> p.creditHour == Int(-1)
    {
      FilterParams(
        semester,
        TextParam(configs[CampusAt].checked, configs[CampusAt].inputValue),
        TextParam(configs[SessionAt].checked, configs[SessionAt].inputValue),
        TextParam(configs[SubjectAt].checked, configs[SubjectAt].inputValue),
        NumberParam(configs[CourseNumberAt].checked, configs[CourseNumberAt].inputValue),
        TextParam(configs[TitleAt].checked, configs[TitleAt].inputValue),
        TextParam(configs[InstructorAt].checked, configs[InstructorAt].inputValue),
        TextParam(configs[TagsAt].checked, configs[TagsAt].inputValue),
        NumberParam(configs[CreditHoursAt].checked, configs[CreditHoursAt].inputValue))
    }

    /** `castFilterFn`: the filter function, built from the filters as they are now, is cast. */
    method CastFilterFn()
      requires Valid()
      modifies this
      ensures Valid() && casts == old(casts) + [Params()] && semester == old(semester)
    {
      var p := Params();
      casts := casts + [p];
    }
  }
}
