/** `CourseSelectorCardComponent`: the memoised status of a section (added, conflict, full),
    the status of a course, the routing of a click on a section, the reorder of its two info
    lists, and the level label of a course number. The selection is the last list the
    semester planner cast; the status cache is keyed by section value. */
module CourseSelector {
  import opened Seqs
  import opened JsText
  import opened Catalog
  import opened Conflict
  import opened Reorder
  import opened SemesterPlanner

  /** `'added' | 'full' | 'conflict' | undefined`. */
  datatype Status = Added | Full | ConflictStatus | NoStatus

  /** The section-level capacity test `s.cap[1] && s.cap[0] >= s.cap[1]`. */
  predicate SectionFull(s: Section) {
    s.cap.1 != 0 && s.cap.0 >= s.cap.1
  }

  /** What `sectionStatus(s)` computes when `s` is not cached: added before conflict before
      full. */
  function StatusOf(s: Section, selected: seq<Section>): (r: Status)
    ensures r == Added <==> s in selected
    ensures r == ConflictStatus <==> s !in selected && SectionConflict(s, selected)
    ensures r == Full <==> s !in selected && !SectionConflict(s, selected) && SectionFull(s)
    ensures s.cap.1 == 0 ==> r != Full
  {
    if s in selected then Added
    else if SectionConflict(s, selected) then ConflictStatus
    else if SectionFull(s) then Full
    else NoStatus
  }

  /** With nothing selected, a section is full or has no status. */
  lemma StatusWithoutSelection(s: Section)
    ensures StatusOf(s, []) == (if SectionFull(s) then Full else NoStatus)
  {
    EmptySelectionNoConflict(s);
  }

  /** Some section of the course is selected. */
  predicate AnySelected(sections: seq<Section>, selected: seq<Section>) {
    exists k :: 0 <= k < |sections| && sections[k] in selected
  }

  /** Every section of the course has status conflict. */
  predicate AllConflict(sections: seq<Section>, selected: seq<Section>) {
    forall k :: 0 <= k < |sections| ==> StatusOf(sections[k], selected) == ConflictStatus
  }

  /** `courseStatus` as written: its full test is `s.cap[0] && s.cap[0] >= s.cap[1]`. */
  function CourseStatusAsWritten(sections: seq<Section>, selected: seq<Section>): Status {
    if AnySelected(sections, selected) then Added
    else if forall k :: 0 <= k < |sections| ==> sections[k].cap.0 != 0 && sections[k].cap.0 >= sections[k].cap.1 then Full
    else if AllConflict(sections, selected) then ConflictStatus
    else NoStatus
  }

  /** A section with three seats taken out of none. */
  const OverCapacity: Section :=
    Section("Main Campus", "fall", 2020, 10001, 0, "01", (3, 3), (3, 0), (0, 0), "", [], None, None, None,
            [], [], "", [], None)

  /** As written, a course whose only section is never full at section level is full. */
  lemma CourseFullAsWrittenDisagrees()
    ensures CourseStatusAsWritten([OverCapacity], []) == Full
    ensures StatusOf(OverCapacity, []) == NoStatus
  {
    StatusWithoutSelection(OverCapacity);
  }

  /** `courseStatus` with the section-level full test: added if a section is selected, full
      if every section is full (a course without sections included), conflict if every
      section conflicts. */
  function CourseStatus(sections: seq<Section>, selected: seq<Section>): Status {
    if AnySelected(sections, selected) then Added
    else if forall k :: 0 <= k < |sections| ==> SectionFull(sections[k]) then Full
    else if AllConflict(sections, selected) then ConflictStatus
    else NoStatus
  }

  /** A course's status summarises its sections' statuses: it is added iff some section is;
      when full, no section is open; when conflict, every section conflicts. */
  lemma CourseStatusSummarises(sections: seq<Section>, selected: seq<Section>)
    ensures CourseStatus(sections, selected) == Added <==>
              exists k :: 0 <= k < |sections| && StatusOf(sections[k], selected) == Added
    ensures CourseStatus(sections, selected) == Full ==>
              forall k :: 0 <= k < |sections| ==> StatusOf(sections[k], selected) in {Full, ConflictStatus}
    ensures CourseStatus(sections, selected) == ConflictStatus ==>
              forall k :: 0 <= k < |sections| ==> StatusOf(sections[k], selected) == ConflictStatus
  {
  }

  /** The two full tests differ only on a section with no positive capacity and seats taken,
      so where there is none, the two course statuses agree. */
  lemma CourseStatusAgrees(sections: seq<Section>, selected: seq<Section>)
    requires forall k :: 0 <= k < |sections| ==> sections[k].cap.1 > 0 || sections[k].cap == (0, 0)
    ensures CourseStatusAsWritten(sections, selected) == CourseStatus(sections, selected)
  {
  }

  /** `courseNumberLevel`: `Math.floor(n / 1000)` followed by "000 Level". */
  function CourseNumberLevel(course: Course): (r: string)
    ensures |r| > 9 && r[|r| - 9..] == "000 Level"
    ensures ToNumber(r[..|r| - 9]).Int?
    ensures var k := ToNumber(r[..|r| - 9]).i; k * 1000 <= course.course < k * 1000 + 1000
  {
    var prefix := IntToString(course.course / 1000);
    ToNumberOfToString(course.course / 1000);
    var r := prefix + "000 Level";
    assert r[..|r| - 9] == prefix;
    r
  }

  /** Where a click on a section goes. */
  datatype Route = Forwarded | FullDialog | ConflictDialog

  /** Some selected section belongs to the course of `s`. */
  predicate SameCourseSelected(s: Section, selected: seq<Section>) {
    exists k :: 0 <= k < |selected| && selected[k].course == s.course
  }

  /** `sectionClick`'s routing: a section of a course already represented is forwarded
      at once; otherwise a full or conflicting section asks first. */
  function RouteOf(s: Section, selected: seq<Section>): (r: Route)
    ensures SameCourseSelected(s, selected) ==> r == Forwarded
    ensures r == FullDialog <==> !SameCourseSelected(s, selected) && StatusOf(s, selected) == Full
    ensures r == ConflictDialog <==> !SameCourseSelected(s, selected) && StatusOf(s, selected) == ConflictStatus
  {
    if SameCourseSelected(s, selected) then Forwarded
    else match StatusOf(s, selected)
      case Full => FullDialog
      case ConflictStatus => ConflictDialog
      case _ => Forwarded
  }

  /** A click on a selected section is always forwarded, so it removes the section. */
  lemma SelectedClickForwarded(s: Section, selected: seq<Section>)
    requires s in selected
    ensures RouteOf(s, selected) == Forwarded
  {
    var k :| 0 <= k < |selected| && selected[k] == s;
    assert selected[k].course == s.course;
  }

  class CourseSelectorCard {
    var selectedSections: seq<Section>
    var statusCache: map<Section, Status>
    const courseInfoOrders: array<int>
    const sectionInfoOrders: array<int>
    const planner: SemesterPlannerService

    /** Every cached status is the one the current selection gives. */
    ghost predicate Valid()
      reads this
    {
      forall s :: s in statusCache ==> statusCache[s] == StatusOf(s, selectedSections)
    }

    constructor(planner: SemesterPlannerService)
      ensures Valid() && this.planner == planner && selectedSections == [] && statusCache == map[]
      ensures fresh(courseInfoOrders) && courseInfoOrders[..] == Identity(5)
      ensures fresh(sectionInfoOrders) && sectionInfoOrders[..] == Identity(8)
    {
      this.planner := planner;
      selectedSections := [];
      statusCache := map[];
      courseInfoOrders := new int[5](i => i);
      sectionInfoOrders := new int[8](i => i);
    }

    /** `selectedSectionsUpdate`: the new selection, and an empty cache. */
    method SelectedSectionsUpdate(sections: seq<Section>)
      modifies this
      ensures Valid() && selectedSections == sections && statusCache == map[]
    {
      selectedSections := sections;
      statusCache := map[];
    }

    /** `sectionStatus`: a cached status is returned as it is; otherwise the status is
        computed and cached. */
    method SectionStatus(s: Section) returns (r: Status)
      requires Valid()
      modifies this
      ensures Valid() && r == StatusOf(s, selectedSections)
      ensures s in old(statusCache) ==> r == old(statusCache)[s] && statusCache == old(statusCache)
      ensures s !in old(statusCache) ==> statusCache == old(statusCache)[s := r]
      ensures selectedSections == old(selectedSections)
    {
      if s in statusCache {
        return statusCache[s];
      }
      if s in selectedSections {
        r := Added;
      } else {
        var conflict := IsSectionConflict(s, selectedSections);
        if conflict {
          r := ConflictStatus;
        } else if s.cap.1 != 0 && s.cap.0 >= s.cap.1 {
          r := Full;
        } else {
          r := NoStatus;
        }
      }
      statusCache := statusCache[s := r];
    }

    /** `sectionClick`: forwarded clicks reach the planner at once; the others open a dialog,
        whose answer arrives through `DialogClosed`. */
    method SectionClick(s: Section) returns (route: Route)
      requires Valid()
      modifies this, planner, planner.storage
      ensures Valid() && route == RouteOf(s, selectedSections)
      ensures selectedSections == old(selectedSections)
      ensures SameCourseSelected(s, selectedSections) ==> statusCache == old(statusCache)
      ensures route == Forwarded ==>
                planner.sections == Clicked(old(planner.sections), s)
                && planner.storage.store == old(planner.storage.store)[CrnsKey := Crns(planner.sections)]
                && planner.casts == old(planner.casts) + [SectionsUpdate(planner.sections)]
      ensures route != Forwarded ==>
                planner.sections == old(planner.sections) && planner.storage.store == old(planner.storage.store)
                && planner.casts == old(planner.casts)
      ensures planner.hoverSection == old(planner.hoverSection) && planner.semester == old(planner.semester)
                && planner.year == old(planner.year)
    {
      var same := FindIndex(selectedSections, (t: Section) => t.course == s.course);
      if same != -1 {
        planner.SectionClick(s);
        return Forwarded;
      }
      var status := SectionStatus(s);
      if status == Full {
        route := FullDialog;
      } else if status == ConflictStatus {
        route := ConflictDialog;
      } else {
        planner.SectionClick(s);
        route := Forwarded;
      }
    }

    /** The dialog's answer: a confirmed click reaches the planner. */
    method DialogClosed(s: Section, confirmed: bool)
      modifies planner, planner.storage
      ensures confirmed ==>
                planner.sections == Clicked(old(planner.sections), s)
                && planner.storage.store == old(planner.storage.store)[CrnsKey := Crns(planner.sections)]
                && planner.casts == old(planner.casts) + [SectionsUpdate(planner.sections)]
      ensures !confirmed ==>
                planner.sections == old(planner.sections) && planner.storage.store == old(planner.storage.store)
                && planner.casts == old(planner.casts)
      ensures planner.hoverSection == old(planner.hoverSection) && planner.semester == old(planner.semester)
                && planner.year == old(planner.year)
    {
      if confirmed {
        planner.SectionClick(s);
      }
    }

    /** `cdkDropListDropped` on one of the two info lists. */
    method CdkDropListDropped(orders: array<int>, prev: int, curr: int)
      modifies orders
      ensures orders[..] == Dropped(old(orders[..]), prev, curr)
    {
      DropInPlace(orders, prev, curr);
    }
  }
}
