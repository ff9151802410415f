/** `SectionInfoCardComponent`: the section shown on mouse-over, and the three display orders
    of its info rows, rearranged by drag and drop, persisted after every drop, and recalled
    from storage when the card starts. */
module SectionInfo {
  import opened Seqs
  import opened Catalog
  import opened Reorder
  import opened Storage

  const SectionOrdersKey: string := "SectionInfoCardComponent.sectionOrders"
  const CourseOrdersKey: string := "SectionInfoCardComponent.courseOrders"
  const InstructorOrdersKey: string := "SectionInfoCardComponent.instructorOrders"

  /** The order `recallOrders` keeps: the stored one when there is one of the same length. */
  function Recalled(stored: Option<seq<int>>, current: seq<int>): (r: seq<int>)
    ensures |r| == |current|
    ensures stored.Some? && |stored.value| == |current| ==> r == stored.value
    ensures stored.None? || |stored.value| != |current| ==> r == current
  {
    if stored.Some? && |stored.value| == |current| then stored.value else current
  }

  /** Recalling what was just saved changes nothing. */
  lemma RecallSaved(current: seq<int>)
    ensures Recalled(Some(current), current) == current
  {
  }

  class SectionInfoCard {
    var section: Option<Section>
    /** The linked course of the section shown. */
    var course: Option<nat>
    var instructor: Option<Employee>
    var sectionOrders: array<int>
    var courseOrders: array<int>
    var instructorOrders: array<int>
    const storage: LocalStorage

    /** The three orders start as identity permutations of lengths 6, 5 and 4. */
    constructor(storage: LocalStorage)
      ensures this.storage == storage && section == None && course == None && instructor == None
      ensures fresh(sectionOrders) && sectionOrders[..] == Identity(6) && IsPermutation(sectionOrders[..])
      ensures fresh(courseOrders) && courseOrders[..] == Identity(5) && IsPermutation(courseOrders[..])
      ensures fresh(instructorOrders) && instructorOrders[..] == Identity(4) && IsPermutation(instructorOrders[..])
    {
      this.storage := storage;
      section, course, instructor := None, None, None;
      sectionOrders := new int[6](i => i);
      courseOrders := new int[5](i => i);
      instructorOrders := new int[4](i => i);
    }

    /** `mouseover(index)`: the section at `index` of the catalog, its course and instructor. */
    method Mouseover(sections: seq<Section>, index: nat)
      requires index < |sections|
      modifies this
      ensures section == Some(sections[index]) && course == sections[index].course
      ensures instructor == sections[index].instructor
      ensures sectionOrders == old(sectionOrders) && courseOrders == old(courseOrders)
      ensures instructorOrders == old(instructorOrders)
    {
      var s := sections[index];
      section := Some(s);
      course := s.course;
      instructor := s.instructor;
    }

    /** `drop`: the order is renumbered in place, then all three orders are saved. */
    method Drop(orders: array<int>, prev: int, curr: int)
      modifies orders, storage
      ensures orders[..] == Dropped(old(orders[..]), prev, curr)
      ensures prev == curr ==> orders[..] == old(orders[..])
      ensures storage.store == old(storage.store)[SectionOrdersKey := sectionOrders[..]]
                [CourseOrdersKey := courseOrders[..]][InstructorOrdersKey := instructorOrders[..]]
    {
      DropInPlace(orders, prev, curr);
      DroppedInPlace(old(orders[..]), prev);
      SaveOrders();
    }

    /** `recallOrders`: each order is replaced by its stored value when that has the same
        length. */
    method RecallOrders()
      modifies this
      ensures sectionOrders[..] == Recalled(storage.Lookup(SectionOrdersKey), old(sectionOrders[..]))
      ensures courseOrders[..] == Recalled(storage.Lookup(CourseOrdersKey), old(courseOrders[..]))
      ensures instructorOrders[..] == Recalled(storage.Lookup(InstructorOrdersKey), old(instructorOrders[..]))
      ensures section == old(section) && course == old(course) && instructor == old(instructor)
    {
      sectionOrders := Recall(SectionOrdersKey, sectionOrders);
      courseOrders := Recall(CourseOrdersKey, courseOrders);
      instructorOrders := Recall(InstructorOrdersKey, instructorOrders);
    }

    /** One of `recallOrders`' three steps: a fresh array holding the stored order, or the
        current array. */
    method Recall(key: string, current: array<int>) returns (r: array<int>)
      ensures r == current || fresh(r)
      ensures r[..] == Recalled(storage.Lookup(key), current[..])
    {
      var stored := storage.Get(key);
      if stored.Some? && |stored.value| == current.Length {
        var value := stored.value;
        r := new int[|value|](i requires 0 <= i < |value| => value[i]);
      } else {
        r := current;
      }
    }

    /** `saveOrders`: the three orders under their keys. */
    method SaveOrders()
      modifies storage
      ensures storage.store == old(storage.store)[SectionOrdersKey := sectionOrders[..]]
                [CourseOrdersKey := courseOrders[..]][InstructorOrdersKey := instructorOrders[..]]
    {
      storage.Set(SectionOrdersKey, sectionOrders[..]);
      storage.Set(CourseOrdersKey, courseOrders[..]);
      storage.Set(InstructorOrdersKey, instructorOrders[..]);
    }
  }
}
