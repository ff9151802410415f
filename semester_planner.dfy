/** `SemesterPlannerService`: the list of selected sections, changed by clicks (toggle off,
    swap within a course, append), persisted as CRNs after every click, and restored from the
    stored CRNs when a term is chosen. Sections are compared by value, and "the same course"
    compares the sections' `course` links. Message-bus casts are appended to `casts`. */
module SemesterPlanner {
  import opened Seqs
  import opened Catalog
  import opened Storage

  /** The storage key of the selected CRNs. */
  const CrnsKey: string := "SemesterPlannerService.sections.crns"

  /** A cast on the message bus. */
  datatype Cast = SectionsUpdate(sections: seq<Section>) | HoverEnter(section: Section) | HoverLeave

  /** `sections.map(s => s.crn)`. */
  function Crns(sections: seq<Section>): (r: seq<int>)
    ensures |r| == |sections|
    ensures forall k :: 0 <= k < |r| ==> r[k] == sections[k].crn
  {
    seq(|sections|, k requires 0 <= k < |sections| => sections[k].crn)
  }

  /** The list after a click on `s`: the selected entry is removed, else the entry of the same
      course is replaced by `s` at its place, else `s` is appended. */
  function Clicked(list: seq<Section>, s: Section): (r: seq<Section>)
    ensures s in list ==>
              exists i :: 0 <= i < |list| && list[i] == s && s !in list[..i] && r == list[..i] + list[i + 1..]
    ensures s !in list && (exists k :: 0 <= k < |list| && list[k].course == s.course) ==>
              exists j :: 0 <= j < |list| && list[j].course == s.course && r == list[j := s]
                && forall k :: 0 <= k < j ==> list[k].course != s.course
    ensures s !in list && (forall k :: 0 <= k < |list| ==> list[k].course != s.course) ==> r == list + [s]
  {
    var index := IndexOf(list, s);
    if index != -1 then
      list[..index] + list[index + 1..]
    else
      var same := FindIndex(list, (t: Section) => t.course == s.course);
      if same != -1 then list[same := s] else list + [s]
  }

  /** At most one section per course (which also rules out a section selected twice). */
  predicate OnePerCourse(list: seq<Section>) {
    forall p, q :: 0 <= p < q < |list| ==> list[p].course != list[q].course
  }

  lemma OnePerCourseNoDuplicates(list: seq<Section>)
    requires OnePerCourse(list)
    ensures NoDuplicates(list)
  {
  }

  /** Removing an entry keeps one section per course. */
  lemma RemoveOnePerCourse(list: seq<Section>, i: nat)
    requires i < |list| && OnePerCourse(list)
    ensures OnePerCourse(list[..i] + list[i + 1..])
  {
    var r := list[..i] + list[i + 1..];
    forall p, q | 0 <= p < q < |r| ensures r[p].course != r[q].course {
      var p' := if p < i then p else p + 1;
      var q' := if q < i then q else q + 1;
      assert r[p] == list[p'] && r[q] == list[q'];
    }
  }

  /** A click keeps one section per course. */
  lemma ClickedOnePerCourse(list: seq<Section>, s: Section)
    requires OnePerCourse(list)
    ensures OnePerCourse(Clicked(list, s))
  {
    var index := IndexOf(list, s);
    if index != -1 {
      RemoveOnePerCourse(list, index);
    }
  }

  /** The list after the clicks of `clicks`, in order, from the empty selection. */
  function ClickAll(clicks: seq<Section>): (r: seq<Section>)
    decreases |clicks|
  {
    if clicks == [] then [] else Clicked(ClickAll(clicks[..|clicks| - 1]), clicks[|clicks| - 1])
  }

  /** Any sequence of clicks from the empty list yields no duplicates and at most one
      section per course. */
  lemma {:induction false} ClickAllOnePerCourse(clicks: seq<Section>)
    ensures OnePerCourse(ClickAll(clicks)) && NoDuplicates(ClickAll(clicks))
    decreases |clicks|
  {
    if clicks != [] {
      ClickAllOnePerCourse(clicks[..|clicks| - 1]);
      ClickedOnePerCourse(ClickAll(clicks[..|clicks| - 1]), clicks[|clicks| - 1]);
    }
    OnePerCourseNoDuplicates(ClickAll(clicks));
  }

  /** Clicking a section of a course not yet represented, twice, restores the list. */
  lemma ClickTwice(list: seq<Section>, s: Section)
    requires forall k :: 0 <= k < |list| ==> list[k].course != s.course
    ensures Clicked(Clicked(list, s), s) == list
  {
    assert s !in list;
    var once := list + [s];
    assert IndexOf(once, s) == |list|;
    assert once[..|list|] == list;
  }

  /** `restoreSections`' filter: the section's CRN is stored and its term is the chosen one. */
  predicate Restorable(s: Section, crns: seq<int>, semester: string, year: int) {
    s.crn in crns && s.year == year && s.semester == semester
  }

  /** The list `restoreSections` builds from the catalog's sections and the stored value. */
  function Restored(catalog: seq<Section>, stored: Option<seq<int>>, semester: string, year: int): (r: seq<Section>)
    ensures stored.None? ==> r == []
    ensures stored.Some? ==> IsSubsequence(r, catalog)
    ensures stored.Some? ==> forall i :: 0 <= i < |catalog| ==>
                                (catalog[i] in r <==> Restorable(catalog[i], stored.value, semester, year))
  {
    match stored
    case None => []
    case Some(crns) =>
      var restorable := (s: Section) => Restorable(s, crns, semester, year);
      FilterSubsequence(catalog, restorable);
      Filter(catalog, restorable)
  }

  /** Saving a selection of sections of the chosen term and restoring it from the same
      catalog brings back every selected section, and nothing whose CRN was not selected. */
  lemma RestoreAfterSave(catalog: seq<Section>, list: seq<Section>, semester: string, year: int)
    requires forall k :: 0 <= k < |list| ==> list[k] in catalog && list[k].year == year && list[k].semester == semester
    ensures forall k :: 0 <= k < |list| ==> list[k] in Restored(catalog, Some(Crns(list)), semester, year)
    ensures forall t :: t in Restored(catalog, Some(Crns(list)), semester, year) ==> t.crn in Crns(list)
  {
    var crns := Crns(list);
    forall k | 0 <= k < |list|
      ensures list[k] in Restored(catalog, Some(crns), semester, year)
    {
      assert crns[k] == list[k].crn;
      var i :| 0 <= i < |catalog| && catalog[i] == list[k];
      assert Restorable(catalog[i], crns, semester, year);
    }
  }

  class SemesterPlannerService {
    var hoverSection: Option<Section>
    var sections: seq<Section>
    /** `undefined` until a term is chosen. */
    var semester: Option<string>
    var year: int
    const storage: LocalStorage
    var casts: seq<Cast>

    constructor(storage: LocalStorage)
      ensures this.storage == storage
      ensures hoverSection == None && sections == [] && semester == None && year == 0 && casts == []
    {
      this.storage := storage;
      hoverSection := None;
      sections := [];
      semester := None;
      year := 0;
      casts := [];
    }

    /** The handler of the chosen term: it stores the term and restores the selection. */
    method SemesterChosen(semester: string, year: int, catalog: seq<Section>)
      modifies this
      ensures this.semester == Some(semester) && this.year == year
      ensures semester == "" || catalog == [] ==> sections == old(sections) && casts == old(casts)
      ensures semester != "" && catalog != [] ==>
                sections == Restored(catalog, storage.Lookup(CrnsKey), semester, year)
                && casts == old(casts) + [SectionsUpdate(sections)]
      ensures hoverSection == old(hoverSection)
    {
      this.semester := Some(semester);
      this.year := year;
      RestoreSections(catalog);
    }

    method SectionMouseEnter(s: Section)
      modifies this
      ensures hoverSection == Some(s) && casts == old(casts) + [HoverEnter(s)]
      ensures sections == old(sections) && semester == old(semester) && year == old(year)
    {
      hoverSection := Some(s);
      casts := casts + [HoverEnter(s)];
    }

    method SectionMouseLeave()
      modifies this
      ensures hoverSection == None && casts == old(casts) + [HoverLeave]
      ensures sections == old(sections) && semester == old(semester) && year == old(year)
    {
      hoverSection := None;
      casts := casts + [HoverLeave];
    }

    /** `sectionClick`: the list changes as `Clicked` says, its CRNs are persisted, and the
        new list is cast. */
    method SectionClick(s: Section)
      modifies this, storage
      ensures sections == Clicked(old(sections), s)
      ensures storage.store == old(storage.store)[CrnsKey := Crns(sections)]
      ensures casts == old(casts) + [SectionsUpdate(sections)]
      ensures hoverSection == old(hoverSection) && semester == old(semester) && year == old(year)
    {
      var index := IndexOf(sections, s);
      if index != -1 {
        sections := sections[..index] + sections[index + 1..];
        SaveSections();
        casts := casts + [SectionsUpdate(sections)];
        return;
      }

      index := FindIndex(sections, (t: Section) => t.course == s.course);
      if index != -1 {
        sections := sections[index := s];
        SaveSections();
        casts := casts + [SectionsUpdate(sections)];
        return;
      }

      sections := sections + [s];
      SaveSections();
      casts := casts + [SectionsUpdate(sections)];
    }

    /** `saveSections`: the CRNs of the list, in order, under `CrnsKey`. */
    method SaveSections()
      modifies storage
      ensures storage.store == old(storage.store)[CrnsKey := Crns(sections)]
      ensures storage.Lookup(CrnsKey) == Some(Crns(sections))
    {
      storage.Set(CrnsKey, Crns(sections));
    }

    /** `restoreSections`: nothing happens without a term or before the catalog has sections;
        otherwise the list becomes the catalog's sections of the term whose CRN is stored. */
    method RestoreSections(catalog: seq<Section>)
      modifies this
      ensures semester.None? || semester.value == "" || catalog == [] ==>
                sections == old(sections) && casts == old(casts)
      ensures semester.Some? && semester.value != "" && catalog != [] ==>
                sections == Restored(catalog, storage.Lookup(CrnsKey), semester.value, year)
                && casts == old(casts) + [SectionsUpdate(sections)]
      ensures hoverSection == old(hoverSection) && semester == old(semester) && year == old(year)
    {
      if semester.None? || semester.value == "" || |catalog| == 0 {
        return;
      }
      var crns := storage.Get(CrnsKey);
      sections := Restored(catalog, crns, semester.value, year);
      casts := casts + [SectionsUpdate(sections)];
    }
  }
}
