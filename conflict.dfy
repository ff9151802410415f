/** The time-conflict test of the course selector card: for each selected section and
    each weekday letter, the meeting slots of both sections on that day are collected,
    sorted by start time (a stable sort, as `Array.prototype.sort` is), and adjacent
    slots are compared inclusively. */
module Conflict {
  import opened Catalog

  /** A `[startTime, endTime]` pair, times in HHMM. */
  datatype Slot = Slot(start: int, end: int)

  /** The day letters tested, Sunday to Saturday. */
  const WeekDays: string := "UMTWRFS"

  /** The slots of the schedules that meet on `day`, in schedule order. */
  function SlotsOn(schedules: seq<Schedule>, day: char): (r: seq<Slot>)
    ensures |r| <= |schedules|
  {
    if schedules == [] then []
    else
      var last := schedules[|schedules| - 1];
      var init := SlotsOn(schedules[..|schedules| - 1], day);
      if day in last.days then init + [Slot(last.startTime, last.endTime)] else init
  }

  /** `slot` is the slot of one of the schedules that meet on `day`. */
  predicate SlotOf(schedules: seq<Schedule>, day: char, slot: Slot) {
    exists m :: 0 <= m < |schedules| && day in schedules[m].days
                && slot == Slot(schedules[m].startTime, schedules[m].endTime)
  }

  /** Every slot comes from a schedule that meets on `day`. */
  lemma {:induction false} SlotsOnSound(schedules: seq<Schedule>, day: char)
    ensures forall k :: 0 <= k < |SlotsOn(schedules, day)| ==> SlotOf(schedules, day, SlotsOn(schedules, day)[k])
    decreases |schedules|
  {
    if schedules != [] {
      var n := |schedules| - 1;
      var init := schedules[..n];
      var r := SlotsOn(schedules, day);
      var prefix := SlotsOn(init, day);
      SlotsOnSound(init, day);
      forall k | 0 <= k < |r|
        ensures SlotOf(schedules, day, r[k])
      {
        if k < |prefix| {
          assert SlotOf(init, day, prefix[k]);
          var m :| 0 <= m < |init| && day in init[m].days
                   && prefix[k] == Slot(init[m].startTime, init[m].endTime);
          assert schedules[m] == init[m];
          assert r[k] == prefix[k];
        } else {
          assert day in schedules[n].days && r[k] == Slot(schedules[n].startTime, schedules[n].endTime);
        }
      }
    }
  }

  /** A schedule that meets on `day` contributes its slot. */
  lemma {:induction false} SlotsOnComplete(schedules: seq<Schedule>, day: char, m: nat)
    requires m < |schedules| && day in schedules[m].days
    ensures Slot(schedules[m].startTime, schedules[m].endTime) in SlotsOn(schedules, day)
    decreases |schedules|
  {
    if m < |schedules| - 1 {
      SlotsOnComplete(schedules[..|schedules| - 1], day, m);
    }
  }

  // ---------------------------------------------------------------- sorting by start

  predicate SortedByStart(s: seq<Slot>) {
    forall p, q :: 0 <= p < q < |s| ==> s[p].start <= s[q].start
  }

  /** `x` inserted into `s` behind every slot that starts no later than it: one step of a
      stable insertion sort. */
  function Insert(s: seq<Slot>, x: Slot): (r: seq<Slot>)
    ensures |r| == |s| + 1
    decreases |s|
  {
    if s == [] || s[|s| - 1].start <= x.start then s + [x]
    else Insert(s[..|s| - 1], x) + [s[|s| - 1]]
  }

  /** Inserting adds `x` and keeps every other slot. */
  lemma {:induction false} InsertPermutes(s: seq<Slot>, x: Slot)
    ensures multiset(Insert(s, x)) == multiset(s) + multiset{x}
    decreases |s|
  {
    if !(s == [] || s[|s| - 1].start <= x.start) {
      InsertPermutes(s[..|s| - 1], x);
      assert s == s[..|s| - 1] + [s[|s| - 1]];
    }
  }

  /** The result of the stable sort of `times` by start time. */
  function SortByStart(s: seq<Slot>): (r: seq<Slot>)
    ensures |r| == |s|
    decreases |s|
  {
    if s == [] then [] else Insert(SortByStart(s[..|s| - 1]), s[|s| - 1])
  }

  /** The sort is a permutation. */
  lemma {:induction false} SortPermutes(s: seq<Slot>)
    ensures multiset(SortByStart(s)) == multiset(s)
    decreases |s|
  {
    if s != [] {
      SortPermutes(s[..|s| - 1]);
      InsertPermutes(SortByStart(s[..|s| - 1]), s[|s| - 1]);
      assert s == s[..|s| - 1] + [s[|s| - 1]];
    }
  }

  lemma {:induction false} InsertSorted(s: seq<Slot>, x: Slot)
    requires SortedByStart(s)
    ensures SortedByStart(Insert(s, x))
    decreases |s|
  {
    if s != [] && s[|s| - 1].start > x.start {
      var init := s[..|s| - 1];
      InsertSorted(init, x);
      InsertBounded(init, x, s[|s| - 1].start);
    }
  }

  /** Inserting into slots that all start by `bound` a slot that does too keeps them so. */
  lemma {:induction false} InsertBounded(s: seq<Slot>, x: Slot, bound: int)
    requires forall k :: 0 <= k < |s| ==> s[k].start <= bound
    requires x.start <= bound
    ensures forall k :: 0 <= k < |Insert(s, x)| ==> Insert(s, x)[k].start <= bound
    decreases |s|
  {
    if !(s == [] || s[|s| - 1].start <= x.start) {
      InsertBounded(s[..|s| - 1], x, bound);
    }
  }

  /** The sort yields the slots in order of their start times. */
  lemma {:induction false} SortByStartSorted(s: seq<Slot>)
    ensures SortedByStart(SortByStart(s))
    decreases |s|
  {
    if s != [] {
      SortByStartSorted(s[..|s| - 1]);
      InsertSorted(SortByStart(s[..|s| - 1]), s[|s| - 1]);
    }
  }

  /** `times.sort((t1, t2) => t1[0] - t2[0])`: a stable insertion sort in place. */
  method SortSlots(a: array<Slot>)
    modifies a
    ensures a[..] == SortByStart(old(a[..]))
  {
    ghost var orig := a[..];
    var i := 0;
    while i < a.Length
      invariant 0 <= i <= a.Length
      invariant a[..i] == SortByStart(orig[..i]) && a[i..] == orig[i..]
    {
      ghost var before := a[..];
      InsertLast(a, i);
      SortStep(orig, i, before, a[..]);
      i := i + 1;
    }
    assert orig[..a.Length] == orig;
  }

  lemma SortStep(orig: seq<Slot>, i: nat, before: seq<Slot>, after: seq<Slot>)
    requires i < |orig| == |before| == |after|
    requires before[..i] == SortByStart(orig[..i]) && before[i..] == orig[i..]
    requires after[..i + 1] == Insert(before[..i], before[i]) && after[i + 1..] == before[i + 1..]
    ensures after[..i + 1] == SortByStart(orig[..i + 1]) && after[i + 1..] == orig[i + 1..]
  {
    assert orig[..i + 1][..i] == orig[..i];
    assert before[i] == orig[i];
    assert before[i + 1..] == before[i..][1..];
    assert orig[i + 1..] == orig[i..][1..];
  }

  /** One pass of the insertion sort: the slot at `i` moves left past every slot of the
      sorted prefix that starts later than it. */
  method InsertLast(a: array<Slot>, i: nat)
    requires i < a.Length
    modifies a
    ensures a[..i + 1] == Insert(old(a[..i]), old(a[i])) && a[i + 1..] == old(a[i + 1..])
  {
    ghost var sorted := a[..i];
    var x := a[i];
    var j := i;
    while j > 0 && a[j - 1].start > a[j].start
      invariant 0 <= j <= i
      invariant forall k :: 0 <= k < j ==> a[k] == sorted[k]
      invariant a[j] == x
      invariant forall k :: j < k <= i ==> a[k] == sorted[k - 1]
      invariant forall k :: i < k < a.Length ==> a[k] == old(a[k])
      invariant forall k :: j <= k < i ==> sorted[k].start > x.start
    {
      a[j - 1], a[j] := a[j], a[j - 1];
      j := j - 1;
    }
    InsertSplit(sorted, x, j);
    Shifted(a[..], old(a[..]), sorted, x, i, j);
  }

  /** After the pass: the sorted prefix with `x` at `j`, and the rest untouched. */
  lemma Shifted(cur: seq<Slot>, orig: seq<Slot>, sorted: seq<Slot>, x: Slot, i: nat, j: nat)
    requires j <= i < |cur| == |orig| && |sorted| == i
    requires forall k :: 0 <= k < j ==> cur[k] == sorted[k]
    requires cur[j] == x
    requires forall k :: j < k <= i ==> cur[k] == sorted[k - 1]
    requires forall k :: i < k < |cur| ==> cur[k] == orig[k]
    ensures cur[..i + 1] == sorted[..j] + [x] + sorted[j..] && cur[i + 1..] == orig[i + 1..]
  {
    ghost var moved := sorted[..j] + [x] + sorted[j..];
    assert forall k :: 0 <= k < j ==> moved[k] == sorted[k];
    assert forall k :: j < k <= i ==> moved[k] == sorted[k - 1];
  }

  /** `Insert` puts `x` right behind the last slot that starts no later than it. */
  lemma {:induction false} InsertSplit(s: seq<Slot>, x: Slot, j: nat)
    requires j <= |s| && (j == 0 || s[j - 1].start <= x.start)
    requires forall k :: j <= k < |s| ==> s[k].start > x.start
    ensures Insert(s, x) == s[..j] + [x] + s[j..]
    decreases |s|
  {
    if j < |s| {
      var init := s[..|s| - 1];
      InsertSplit(init, x, j);
      assert init[..j] == s[..j];
      assert s[j..] == init[j..] + [s[|s| - 1]];
    }
  }

  // ---------------------------------------------------------------- the adjacent-pair test

  /** Some slot ends at or after the start of the slot that follows it. */
  predicate AdjacentClash(s: seq<Slot>) {
    exists i :: 1 <= i < |s| && s[i - 1].end >= s[i].start
  }

  /** Two different slots of `s`, each given by position, where the second starts within the
      first (inclusively). */
  predicate PairClash(s: seq<Slot>) {
    exists i, j :: 0 <= i < |s| && 0 <= j < |s| && i != j && s[i].start <= s[j].start <= s[i].end
  }

  /** The same, stated on the multiset of slots: it does not depend on their order. */
  predicate MultisetClash(m: multiset<Slot>) {
    exists x, y :: x in m && y in m && (x != y || m[x] >= 2) && x.start <= y.start <= x.end
  }

  /** Every slot starts no later than it ends. */
  predicate WellFormed(s: seq<Slot>) {
    forall k :: 0 <= k < |s| ==> s[k].start <= s[k].end
  }

  /** On slots sorted by start, an overlapping pair anywhere shows up as an adjacent pair. */
  lemma AdjacentIffPair(s: seq<Slot>)
    requires SortedByStart(s)
    ensures AdjacentClash(s) ==> PairClash(s)
    ensures WellFormed(s) && PairClash(s) ==> AdjacentClash(s)
  {
    if AdjacentClash(s) {
      var i :| 1 <= i < |s| && s[i - 1].end >= s[i].start;
      assert s[i - 1].start <= s[i].start <= s[i - 1].end;
    }
    if WellFormed(s) && PairClash(s) {
      var i, j :| 0 <= i < |s| && 0 <= j < |s| && i != j && s[i].start <= s[j].start <= s[i].end;
      if i < j {
        assert s[i + 1].start <= s[j].start;
        assert s[i].end >= s[i + 1].start;
      } else {
        assert s[j].start <= s[j].end;
        assert s[j + 1].start <= s[i].start;
        assert s[j].end >= s[j + 1].start;
      }
    }
  }

  /** Two positions holding the same slot make it occur twice. */
  lemma {:induction false} TwoPositions(s: seq<Slot>, i: nat, j: nat)
    requires i < j < |s| && s[i] == s[j]
    ensures multiset(s)[s[i]] >= 2
  {
    assert s == s[..j] + [s[j]] + s[j + 1..];
    assert s[i] in s[..j];
  }

  /** A slot occurring twice sits at two positions. */
  lemma {:induction false} TwiceAtTwo(s: seq<Slot>, x: Slot)
    requires multiset(s)[x] >= 2
    ensures exists i, j :: 0 <= i < |s| && 0 <= j < |s| && i != j && s[i] == x && s[j] == x
    decreases |s|
  {
    var init := s[..|s| - 1];
    assert s == init + [s[|s| - 1]];
    if s[|s| - 1] == x {
      assert x in multiset(init);
      var i :| 0 <= i < |init| && init[i] == x;
      assert s[i] == x && s[|s| - 1] == x;
    } else {
      TwiceAtTwo(init, x);
      var i, j :| 0 <= i < |init| && 0 <= j < |init| && i != j && init[i] == x && init[j] == x;
      assert s[i] == x && s[j] == x;
    }
  }

  /** The positional statement and the multiset one agree. */
  lemma PairIffMultiset(s: seq<Slot>)
    ensures PairClash(s) <==> MultisetClash(multiset(s))
  {
    if PairClash(s) {
      var i, j :| 0 <= i < |s| && 0 <= j < |s| && i != j && s[i].start <= s[j].start <= s[i].end;
      if s[i] == s[j] {
        if i < j { TwoPositions(s, i, j); } else { TwoPositions(s, j, i); }
      }
      assert s[i] in multiset(s) && s[j] in multiset(s);
    }
    if MultisetClash(multiset(s)) {
      var x, y :| x in multiset(s) && y in multiset(s) && (x != y || multiset(s)[x] >= 2) && x.start <= y.start <= x.end;
      if x == y {
        TwiceAtTwo(s, x);
        var i, j :| 0 <= i < |s| && 0 <= j < |s| && i != j && s[i] == x && s[j] == x;
        assert s[i].start <= s[j].start <= s[i].end;
      } else {
        var i :| 0 <= i < |s| && s[i] == x;
        var j :| 0 <= j < |s| && s[j] == y;
        assert s[i].start <= s[j].start <= s[i].end;
      }
    }
  }

  lemma WellFormedPermutation(s: seq<Slot>, t: seq<Slot>)
    requires multiset(s) == multiset(t) && WellFormed(s)
    ensures WellFormed(t)
  {
    forall k | 0 <= k < |t| ensures t[k].start <= t[k].end {
      assert t[k] in multiset(s);
      var m :| 0 <= m < |s| && s[m] == t[k];
    }
  }

  /** For well-formed slots the sorted adjacent test is exactly the order-free overlap test;
      in any case an adjacent clash is an overlap. */
  lemma SortedClash(times: seq<Slot>)
    ensures AdjacentClash(SortByStart(times)) ==> MultisetClash(multiset(times))
    ensures WellFormed(times) ==> (AdjacentClash(SortByStart(times)) <==> MultisetClash(multiset(times)))
  {
    var sorted := SortByStart(times);
    SortByStartSorted(times);
    SortPermutes(times);
    AdjacentIffPair(sorted);
    PairIffMultiset(sorted);
    if WellFormed(times) { WellFormedPermutation(times, sorted); }
  }

  // ---------------------------------------------------------------- the per-day test

  /** The answer for one day: `times` holds the candidate's slots, then the selected
      section's, and is sorted before the adjacent pairs are compared. */
  function DayConflict(a: seq<Schedule>, b: seq<Schedule>, day: char): bool {
    AdjacentClash(SortByStart(SlotsOn(a, day) + SlotsOn(b, day)))
  }

  predicate SchedulesWellFormed(schedules: seq<Schedule>) {
    forall m :: 0 <= m < |schedules| ==> schedules[m].startTime <= schedules[m].endTime
  }

  lemma SlotsOnWellFormed(schedules: seq<Schedule>, day: char)
    requires SchedulesWellFormed(schedules)
    ensures WellFormed(SlotsOn(schedules, day))
  {
    SlotsOnSound(schedules, day);
  }

  /** With slots that start no later than they end, which section is the candidate and
      which is selected does not matter. */
  lemma DayConflictSymmetric(a: seq<Schedule>, b: seq<Schedule>, day: char)
    requires SchedulesWellFormed(a) && SchedulesWellFormed(b)
    ensures DayConflict(a, b, day) == DayConflict(b, a, day)
  {
    SlotsOnWellFormed(a, day);
    SlotsOnWellFormed(b, day);
    ClashSymmetric(SlotsOn(a, day), SlotsOn(b, day));
  }

  /** Sorting well-formed slots makes the order of the two groups irrelevant. */
  lemma ClashSymmetric(x: seq<Slot>, y: seq<Slot>)
    requires WellFormed(x) && WellFormed(y)
    ensures AdjacentClash(SortByStart(x + y)) == AdjacentClash(SortByStart(y + x))
  {
    var xy, yx := x + y, y + x;
    WellFormedAppend(x, y);
    WellFormedAppend(y, x);
    assert multiset(xy) == multiset(x) + multiset(y) == multiset(yx);
    calc {
      AdjacentClash(SortByStart(xy));
      { SortedClash(xy); }
      MultisetClash(multiset(xy));
      MultisetClash(multiset(yx));
      { SortedClash(yx); }
      AdjacentClash(SortByStart(yx));
    }
  }

  lemma WellFormedAppend(x: seq<Slot>, y: seq<Slot>)
    requires WellFormed(x) && WellFormed(y)
    ensures WellFormed(x + y)
  {
    forall k | 0 <= k < |x + y| ensures (x + y)[k].start <= (x + y)[k].end {
      if k < |x| { assert (x + y)[k] == x[k]; } else { assert (x + y)[k] == y[k - |x|]; }
    }
  }

  /** Only meetings on a common day letter can clash: with no meeting on `day` on one side,
      the other section's own slots are all that is compared. */
  lemma DayConflictAlone(a: seq<Schedule>, b: seq<Schedule>, day: char)
    requires forall m :: 0 <= m < |b| ==> day !in b[m].days
    ensures DayConflict(a, b, day) == AdjacentClash(SortByStart(SlotsOn(a, day)))
  {
    SlotsOnNone(b, day);
    assert SlotsOn(a, day) + SlotsOn(b, day) == SlotsOn(a, day);
  }

  lemma {:induction false} SlotsOnNone(schedules: seq<Schedule>, day: char)
    requires forall m :: 0 <= m < |schedules| ==> day !in schedules[m].days
    ensures SlotsOn(schedules, day) == []
    decreases |schedules|
  {
    if schedules != [] { SlotsOnNone(schedules[..|schedules| - 1], day); }
  }

  /** `isSectionConflict`: some selected section clashes on some day letter. */
  predicate SectionConflict(s: Section, selected: seq<Section>) {
    exists n, d :: 0 <= n < |selected| && 0 <= d < |WeekDays| && DayConflict(s.schedules, selected[n].schedules, WeekDays[d])
  }

  lemma EmptySelectionNoConflict(s: Section)
    ensures !SectionConflict(s, [])
  {
  }

  // ---------------------------------------------------------------- the loops

  /** `for (const schedule of schedules) if (schedule.days?.includes(day)) times.push(...)`. */
  method CollectSlots(times: seq<Slot>, schedules: seq<Schedule>, day: char) returns (r: seq<Slot>)
    ensures r == times + SlotsOn(schedules, day)
  {
    r := times;
    var m := 0;
    while m < |schedules|
      invariant 0 <= m <= |schedules| && r == times + SlotsOn(schedules[..m], day)
    {
      assert schedules[..m + 1][..m] == schedules[..m];
      if day in schedules[m].days {
        r := r + [Slot(schedules[m].startTime, schedules[m].endTime)];
      }
      m := m + 1;
    }
    assert schedules[..m] == schedules;
  }

  /** `for (let i = 1; i < times.length; i++) if (times[i - 1][1] >= times[i][0]) ...`. */
  method HasAdjacentClash(a: array<Slot>) returns (found: bool)
    ensures found == AdjacentClash(a[..])
  {
    var i := 1;
    while i < a.Length
      invariant 1 <= i <= a.Length || a.Length == 0
      invariant forall k :: 1 <= k < i && k < a.Length ==> a[k - 1].end < a[k].start
    {
      if a[i - 1].end >= a[i].start {
        assert a[..][i - 1].end >= a[..][i].start;
        return true;
      }
      i := i + 1;
    }
    return false;
  }

  /** The body of the day loop: collect, sort in place, compare neighbours. */
  method DayClash(a: seq<Schedule>, b: seq<Schedule>, day: char) returns (r: bool)
    ensures r == DayConflict(a, b, day)
  {
    var times := CollectSlots([], a, day);
    assert times == SlotsOn(a, day);
    times := CollectSlots(times, b, day);
    var buffer := new Slot[|times|](k requires 0 <= k < |times| => times[k]);
    assert buffer[..] == times;
    SortSlots(buffer);
    r := HasAdjacentClash(buffer);
  }

  /** `isSectionConflict(s)` against the selection. */
  method IsSectionConflict(s: Section, selected: seq<Section>) returns (r: bool)
    ensures r == SectionConflict(s, selected)
  {
    var n := 0;
    while n < |selected|
      invariant 0 <= n <= |selected|
      invariant forall n', d :: 0 <= n' < n && 0 <= d < |WeekDays| ==>
                  !DayConflict(s.schedules, selected[n'].schedules, WeekDays[d])
    {
      var clash := ClashesWith(s.schedules, selected[n].schedules);
      if clash {
        return true;
      }
      n := n + 1;
    }
    return false;
  }

  /** The day loop of `isSectionConflict` for one selected section. */
  method ClashesWith(a: seq<Schedule>, b: seq<Schedule>) returns (r: bool)
    ensures r <==> exists d :: 0 <= d < |WeekDays| && DayConflict(a, b, WeekDays[d])
  {
    var d := 0;
    while d < |WeekDays|
      invariant 0 <= d <= |WeekDays|
      invariant forall d' :: 0 <= d' < d ==> !DayConflict(a, b, WeekDays[d'])
    {
      var clash := DayClash(a, b, WeekDays[d]);
      if clash {
        return true;
      }
      d := d + 1;
    }
    return false;
  }

  /** `isSectionConflict` for well-formed slots: some selected section has two meetings on a
      common day letter, one starting within the other. */
  lemma ConflictMeansOverlap(s: Section, selected: seq<Section>)
    requires SchedulesWellFormed(s.schedules)
    requires forall n :: 0 <= n < |selected| ==> SchedulesWellFormed(selected[n].schedules)
    ensures SectionConflict(s, selected) <==>
              exists n, d :: 0 <= n < |selected| && 0 <= d < |WeekDays| &&
                MultisetClash(multiset(SlotsOn(s.schedules, WeekDays[d]) + SlotsOn(selected[n].schedules, WeekDays[d])))
  {
    forall n, d | 0 <= n < |selected| && 0 <= d < |WeekDays|
      ensures DayConflict(s.schedules, selected[n].schedules, WeekDays[d]) <==>
                MultisetClash(multiset(SlotsOn(s.schedules, WeekDays[d]) + SlotsOn(selected[n].schedules, WeekDays[d])))
    {
      var times := SlotsOn(s.schedules, WeekDays[d]) + SlotsOn(selected[n].schedules, WeekDays[d]);
      SlotsOnWellFormed(s.schedules, WeekDays[d]);
      SlotsOnWellFormed(selected[n].schedules, WeekDays[d]);
      assert WellFormed(times);
      SortedClash(times);
    }
  }
}
