# Florida Tech Course Planner — a Dafny model of its core

The course planner is an Angular application that downloads a minimised course catalog,
expands it into linked objects, and lets a student browse and filter sections, pick one
section per course, see the week calendar, and print a registration form. This project
models the deterministic core of that application in Dafny and proves what the code
promises about it:

- `Catalog` and `CourseData` — `CourseDataService`. The eighteen asset files are handled in
  their fixed order. The positional `fromMinJson` decoders use `-1` as the "absent"
  reference, and `Subject` takes a slice of the course pool. `expand` truncates and refills
  every pool in order, then links sections to courses and courses to subjects. The download
  chain `load` → `save` → … → `expand` and its `error` path are modelled, as is the metadata
  timestamp rule.
- `Conflict` and `CourseSelector` — `CourseSelectorCardComponent`. This covers the
  per-weekday interval test (`isSectionConflict`), the memoised section status, the course
  status, the routing of a section click, the reorder of the info lists and the course-level
  label.
- `SemesterPlanner` — `SemesterPlannerService`. Clicks toggle, swap or append. The CRNs
  are persisted after each click, and the selection is restored filtered by term.
- `Reorder` — the drag-and-drop renumbering shared by the selector card and the info card,
  done in place on an array.
- `SectionInfo` — `SectionInfoCardComponent`. The three display orders are persisted after
  each drop and recalled when their length matches.
- `SectionFilter` and `SectionFilterOption` — the filter card's option lists (distinct,
  sorted) and the row predicate it casts. Each filter's configuration changes through
  toggle, typing, table-cell click and reset.
- `SectionTable` — `SectionTableCardComponent`. This covers HHMM times split into minutes and
  `HH:MM` text, the early and late flags, the building label, the sort keys, the row
  indexing and the mouse-over report.
- `Calendar` — `CalendarCardComponent`. One event is made per meeting day, and sections
  without a meeting day are counted. Hovering shows a section's events and leaving removes
  them; a selection update rebuilds the events. The registration-form course lines and their
  page breaks are modelled.
- `PrerequisiteHighlight` — the pipe's parenthesis counter, its cache and the wrapping span.
- Shared helpers: `Seqs` (JavaScript `indexOf`, `findIndex`, `filter`), `JsText` (`%`,
  `toLowerCase`, `includes`, `toString`, unary `+`, two-digit padding), `Ordering` (sorted
  distinct option lists) and `Storage` (`LocalStorageService` as a map from keys to stored
  number lists).

Entities are datatypes. A section's `course` and a course's `subject` are pool positions
(`Option<nat>`, `None` standing for `undefined`). `Course.sections` and `Subject.courses`
hold pool positions too. State that the source updates in place lives in classes, with
`modifies` clauses: `CourseDataService`, the components, the storage service, the filter
configurations, and the order arrays, which are `array<int>`. Message-bus casts are
appended to an event or cast log.

## Model

| member | source | states |
|---|---|---|
| Seqs.IndexOf | src/app/semester-planner.service.ts:58 | `indexOf`: -1 iff absent, otherwise the first position holding the value |
| Seqs.FindIndex | src/app/semester-planner.service.ts:67 | `findIndex`: -1 iff no element satisfies the test, otherwise the first one that does |
| Seqs.Filter | src/app/semester-planner.service.ts:95-97 | `filter`: every kept element satisfies the test and every satisfying element is kept |
| Seqs.FilterSubsequence | src/app/semester-planner.service.ts:95-97 | `filter` keeps the original order (a subsequence) |
| Seqs.FilterAll | src/app/section-filter-option/section-filter-option.component.ts:97-99 | a test every element passes keeps the whole list |
| Seqs.FilterNone | src/app/calendar-card/calendar-card.component.ts:177 | a test no element passes keeps nothing |
| Seqs.FilterAppend | src/app/calendar-card/calendar-card.component.ts:177 | filtering distributes over concatenation |
| JsText.JsRem | src/app/section-table-card/section-table-card.component.ts:142 | JavaScript `%`: equals Dafny's remainder on non-negative operands and takes the dividend's sign on negative ones |
| JsText.ToLower | src/app/section-filter-card/section-filter-card.component.ts:170 | `toLowerCase` maps character by character and keeps the length |
| JsText.ToLowerIdempotent | src/app/section-filter-card/section-filter-card.component.ts:189-195 | lower-casing twice is lower-casing once, so lower-cased filter texts compare alike |
| JsText.Contains | src/app/section-filter-card/section-filter-card.component.ts:189-196 | `includes` holds iff the text occurs at some position |
| JsText.ContainsEmpty | src/app/section-filter-card/section-filter-card.component.ts:170-172 | every text contains the empty text |
| JsText.DigitChar | src/app/section-filter-card/section-filter-card.component.ts:128 | a digit prints as the character with that digit value |
| JsText.NatToString | src/app/section-filter-card/section-filter-card.component.ts:128 | `toString` of a natural is a non-empty digit string, one digit long iff below ten |
| JsText.NatToStringRoundTrip | src/app/section-filter-card/section-filter-card.component.ts:128 | the digits printed read back as the number |
| JsText.IntToString | src/app/calendar-card/calendar-card.component.ts:259 | `toString` of an integer is never empty |
| JsText.ToNumber | src/app/section-filter-card/section-filter-card.component.ts:176 | unary `+`: a digit string, optionally after '-', reads as its value; other text is NaN; `ToNumberOfToString` is its partner |
| JsText.ToNumberOfToString | src/app/section-filter-card/section-filter-card.component.ts:176 | unary `+` of a printed integer gives the integer back |
| JsText.Pad2 | src/app/section-table-card/section-table-card.component.ts:143 | `%02d` of 0..99 is two digits reading back as the number |
| Ordering.Insert | src/app/section-filter-card/section-filter-card.component.ts:128-130 | inserting into a strictly sorted list keeps it strictly sorted with exactly one more value |
| Ordering.SortedDistinct | src/app/section-filter-card/section-filter-card.component.ts:128-130 | `new Set` then `sort`: strictly sorted and holding exactly the input's values |
| Ordering.StrictlySortedUnique | src/app/section-filter-card/section-filter-card.component.ts:128-130 | two strictly sorted lists with the same values are equal, so the option list is determined |
| Ordering.IntLessIsOrder | src/app/section-filter-card/section-filter-card.component.ts:146 | `(a, b) => a - b` is a strict total order |
| Ordering.StringLessIrreflexive | src/app/section-filter-card/section-filter-card.component.ts:130 | the default `sort` order is irreflexive |
| Ordering.StringLessTransitive | src/app/section-filter-card/section-filter-card.component.ts:130 | the default `sort` order is transitive |
| Ordering.StringLessTotal | src/app/section-filter-card/section-filter-card.component.ts:130 | any two distinct texts are ordered one way or the other |
| Ordering.StringLessIsOrder | src/app/section-filter-card/section-filter-card.component.ts:130 | the default `sort` order is a strict total order |
| Catalog.Ref | src/app/course-data.service.ts:373-376 | a nullable reference is `null` iff its id is -1, and any other valid id gives `pool[id]` |
| Catalog.TextRef | src/app/course-data.service.ts:485-488 | a string reference gives `''` for -1 and `pool[id]` for any other valid id |
| Catalog.Refs | src/app/course-data.service.ts:495-497 | `ids.map(id => pool[id])` keeps the length and entry `k` is `pool[ids[k]]` |
| Catalog.SemesterName | src/app/course-data.service.ts:490-493 | the semester is `''` iff its id is -1 |
| Catalog.SemesterNames | src/app/course-data.service.ts:490-493 | ids 0, 1 and 2 decode to spring, summer and fall |
| Catalog.RefRoundTrip | src/app/course-data.service.ts:373-376 | a pool element or null, encoded as an id, decodes to itself |
| Catalog.TextRefRoundTrip | src/app/course-data.service.ts:485-488 | a pool string or `''`, encoded as an id, decodes to itself |
| Catalog.RefsRoundTrip | src/app/course-data.service.ts:495-497 | a list of pool elements, encoded as ids, decodes to itself |
| Catalog.SemesterRoundTrip | src/app/course-data.service.ts:490-493 | each semester name, encoded as its id, decodes to itself |
| Catalog.Index | src/app/course-data.service.ts:64-138 | each asset has a position below eighteen in the asset order |
| Catalog.AssetOrderIndex | src/app/course-data.service.ts:64-138 | the asset at each position of the order has that position |
| Catalog.IndexInOrder | src/app/course-data.service.ts:64-138 | every asset appears in the order at its position |
| Catalog.IndexInjective | src/app/course-data.service.ts:64-138 | distinct assets have distinct positions |
| Catalog.PathsDistinct | src/app/course-data.service.ts:64-138 | distinct assets have distinct paths, so the path-keyed cache keeps them apart |
| Catalog.EmptyPool | src/app/course-data.service.ts:260 | `property.length = 0` leaves an empty pool of the asset's type |
| Catalog.DecodeBuilding | src/app/course-data.service.ts:351-353 | `Building.fromMinJson`: code and name taken positionally |
| Catalog.DecodeTag | src/app/course-data.service.ts:424-426 | `Tag.fromMinJson`: code and name taken positionally |
| Catalog.DecodeDepartment | src/app/course-data.service.ts:367-382 | `Department.fromMinJson`: the building id resolved with `Ref`; `DepartmentRoundTrip` is its partner |
| Catalog.DecodeEmployee | src/app/course-data.service.ts:396-415 | `Employee.fromMinJson`: building and department ids resolved with `Ref`; `EmployeeRoundTrip` is its partner |
| Catalog.DecodeSchedule | src/app/course-data.service.ts:604-622 | a schedule tuple: a numeric building is looked up in the building pool, a string kept as a name |
| Catalog.SliceBound | src/app/course-data.service.ts:439 | a `slice` bound is clamped to the pool and kept when in range |
| Catalog.SlicePositions | src/app/course-data.service.ts:439 | `slice(start, end)` keeps consecutive positions of the pool, exactly `start..end-1` when `0 <= start <= end <= n` |
| Catalog.DecodeSubject | src/app/course-data.service.ts:436-442 | `Subject.fromMinJson` keeps code and name, and its courses are positions of the course pool |
| Catalog.DecodeCourse | src/app/course-data.service.ts:476-539 | `Course.fromMinJson` leaves `subject` unset until the link step |
| Catalog.DecodeSection | src/app/course-data.service.ts:566-637 | `Section.fromMinJson` leaves `course` unset and decodes one meeting per schedule tuple |
| Catalog.DepartmentRoundTrip | src/app/course-data.service.ts:367-382 | a department whose building is in the pool decodes back from its encoding |
| Catalog.EmployeeRoundTrip | src/app/course-data.service.ts:396-415 | an employee whose building and department are in the pools decodes back from its encoding |
| Catalog.CourseRoundTrip | src/app/course-data.service.ts:476-539 | an unlinked course with its references in the pools decodes back from its encoding |
| Catalog.SectionRoundTrip | src/app/course-data.service.ts:566-637 | an unlinked section decodes back from its encoding, meetings and buildings included |
| Catalog.FromMinJson | src/app/course-data.service.ts:64-138 | the asset table's decoder yields an entry of the type of the asset's pool |
| Catalog.AgreeAll | src/app/course-data.service.ts:42-59 | catalogs agreeing on all eighteen pools are equal |
| Catalog.AgreeExceptPool | src/app/course-data.service.ts:260-265 | changing the pool of one asset keeps every other pool |
| Catalog.SectionInputs | src/app/course-data.service.ts:566-637 | the pools `Section.fromMinJson` reads all come before the section pool in the order |
| Catalog.CourseInputs | src/app/course-data.service.ts:476-539 | the pools `Course.fromMinJson` reads all come before the course pool in the order |
| Catalog.SectionDecodeFrame | src/app/course-data.service.ts:566-637 | a section row decodes alike against any catalog with the same earlier pools |
| Catalog.CourseDecodeFrame | src/app/course-data.service.ts:476-539 | a course row decodes alike against any catalog with the same earlier pools |
| Catalog.DecodeFrame | src/app/course-data.service.ts:255-266 | every decoder reads only pools before its own, so one ordered pass never reads an unbuilt pool |
| Catalog.FromMinJsonIsDecoder | src/app/course-data.service.ts:64-138 | the asset table's decoders have the pool's type and depend only on earlier pools |
| Catalog.DecoderFrame | src/app/course-data.service.ts:255-266 | any such decoder accepts and decodes a value alike on catalogs with the same earlier pools |
| Catalog.ExceptBefore | src/app/course-data.service.ts:255-266 | changing only an asset's pool keeps the pools before it |
| Catalog.SetPool | src/app/course-data.service.ts:260-265 | replacing one pool sets it and keeps all others |
| Catalog.AppendSize | src/app/course-data.service.ts:264 | `push` of an entry of the pool's type adds exactly one entry |
| Catalog.Push | src/app/course-data.service.ts:264 | `property.push(fromMinJson(this, value))` changes only that property |
| Catalog.PushSize | src/app/course-data.service.ts:264 | a push keeps the pool's type and adds one entry |
| Catalog.Clear | src/app/course-data.service.ts:260 | `property.length = 0` empties only that property |
| Catalog.AllFitFrame | src/app/course-data.service.ts:262-265 | cached values keep decoding while the earlier pools are unchanged |
| Catalog.PushAll | src/app/course-data.service.ts:262-265 | the inner loop changes only the property being refilled |
| Catalog.PushAllSize | src/app/course-data.service.ts:262-265 | the inner loop adds one entry per cached value |
| Catalog.Rebuild | src/app/course-data.service.ts:260-265 | clear and refill change only that property |
| Catalog.RebuildSize | src/app/course-data.service.ts:260-265 | the refilled pool holds exactly one entry per cached value |
| Catalog.RebuildContents | src/app/course-data.service.ts:260-265 | the rebuilt pool holds exactly the cached values, in order: entry `k` is value `k` decoded against the catalog before the pass |
| Catalog.AppendEntries | src/app/course-data.service.ts:264 | `push` keeps the entries already there and puts the new one last |
| Catalog.ExtendsStep | src/app/course-data.service.ts:262-265 | one more push extends the pool by the decoding of one more value |
| Catalog.PushAllContents | src/app/course-data.service.ts:262-265 | the inner loop keeps the pool's entries and appends, in order, the decoding of each value |
| Catalog.PushAllStep | src/app/course-data.service.ts:262-265 | each pass of the inner loop pushes the next cached value, which decodes |
| Catalog.PushAllFrame | src/app/course-data.service.ts:262-265 | the refilled pool depends only on the values, its start and the earlier pools |
| Catalog.RebuildFrame | src/app/course-data.service.ts:260-265 | the rebuilt pool depends only on the values and the earlier pools, so its old contents are discarded |
| Catalog.StageFrame | src/app/course-data.service.ts:255-266 | after `i` passes, two starting catalogs agree on the first `i` pools |
| Catalog.StageFitsStep | src/app/course-data.service.ts:255-266 | values of the next asset decode against either stage |
| Catalog.StageAgreeStep | src/app/course-data.service.ts:255-266 | one more pass keeps two stages in agreement on one more pool |
| Catalog.ExpandedIndependent | src/app/course-data.service.ts:255-266 | the outer loop's result does not depend on what the pools held before |
| Catalog.StageStep | src/app/course-data.service.ts:255-266 | pass `i` rebuilds the pool of the `i`th asset from its cached values |
| Catalog.Stage | src/app/course-data.service.ts:255-266 | the catalog after the first `i` passes of the outer loop; `StageStep`, `StageKeeps` and `ExpandedSizes` state what it holds |
| Catalog.StageKeeps | src/app/course-data.service.ts:255-266 | a pool rebuilt at one pass is untouched by later passes |
| Catalog.ExpandedSizes | src/app/course-data.service.ts:255-266 | after the loop every pool has its type and holds, in order, exactly its cached values, each decoded against the catalog of the pass that rebuilt it |
| Catalog.Expanded | src/app/course-data.service.ts:253-276 | the linked catalog `expand` builds from the cache; `ExpandedFrom` and `ExpandedSizes` are about it |
| Catalog.LinkIndex | src/app/course-data.service.ts:271 | `pool[id]` is the position when in range, otherwise `undefined` |
| Catalog.LinkSections | src/app/course-data.service.ts:269-272 | the section link loop keeps the number of sections |
| Catalog.LinkCourses | src/app/course-data.service.ts:273-276 | the course link loop keeps the number of courses |
| Catalog.Link | src/app/course-data.service.ts:269-276 | both link loops keep the numbers of sections and courses |
| Catalog.LinkAt | src/app/course-data.service.ts:269-276 | the link loops rewrite the section and course pools and keep the subjects |
| Catalog.LinkLinks | src/app/course-data.service.ts:269-276 | after linking, each section points at `courses[courseId]` and each course at `subjects[subjectId]`, and nothing else changes |
| Catalog.LinkKeeps | src/app/course-data.service.ts:269-276 | linking leaves the other sixteen pools alone |
| Catalog.LinkIdempotent | src/app/course-data.service.ts:269-276 | rerunning the link loops changes nothing |
| Catalog.ExpandedFrom | src/app/course-data.service.ts:253-283 | `expand` from any previous pools gives the same linked catalog |
| Catalog.CopySubject | src/app/course-data.service.ts:444-450 | `Subject.copy` keeps code and name and exactly the courses matching campus and semester, in order |
| CourseData.CourseDataService.constructor | src/app/course-data.service.ts:30-59 | the service starts with no sizes, timestamp 0, years `[0, 0, 0]`, empty pools and an empty cache |
| CourseData.CourseDataService.LoadMetaData | src/app/course-data.service.ts:149-158 | a forced load sets the timestamp to -1; nothing else changes |
| CourseData.CourseDataService.SaveMetaData | src/app/course-data.service.ts:163-173 | the metadata is stored, and update-available is cast iff the timestamp differs |
| CourseData.CourseDataService.Reload | src/app/course-data.service.ts:181-184 | reload forgets the timestamp and requests the first asset |
| CourseData.CourseDataService.ProgressOf | src/app/course-data.service.ts:208-216 | the progress report names the asset's path, its size (0 if unknown), the index and the number of sizes |
| CourseData.CourseDataService.Load | src/app/course-data.service.ts:191-217 | `load(i)` expands exactly when `i` is eighteen; otherwise it reports progress and changes no pool |
| CourseData.CourseDataService.Save | src/app/course-data.service.ts:224-237 | the file's values are cached under its path and the next asset is loaded, expanding after the last |
| CourseData.CourseDataService.Error | src/app/course-data.service.ts:244-247 | a failed download empties the cache, casts the error and modifies no pool |
| CourseData.CourseDataService.Expand | src/app/course-data.service.ts:253-283 | the pools become the expanded, linked catalog of the cache, the cache is cleared and completion is cast |
| CourseData.CourseDataService.Complete | src/app/course-data.service.ts:279-280 | the cache is cleared and completion is cast |
| CourseData.CourseDataService.ExpandPools | src/app/course-data.service.ts:255-276 | the two phases of `expand` give the expanded catalog, linked |
| CourseData.CourseDataService.RebuildAll | src/app/course-data.service.ts:255-266 | the outer loop rebuilds all eighteen pools in order |
| CourseData.CourseDataService.RebuildNext | src/app/course-data.service.ts:256-265 | one pass of the outer loop advances one stage |
| CourseData.CourseDataService.RebuildPool | src/app/course-data.service.ts:260-265 | truncation then one push per value is the rebuilt pool |
| CourseData.CourseDataService.LinkSectionPool | src/app/course-data.service.ts:269-272 | the section link loop computes the linked sections |
| CourseData.CourseDataService.LinkCoursePool | src/app/course-data.service.ts:273-276 | the course link loop computes the linked courses |
| Conflict.SlotsOn | src/app/course-selector-card/course-selector-card.component.ts:244-248 | a day's slots number at most the schedules |
| Conflict.SlotsOnSound | src/app/course-selector-card/course-selector-card.component.ts:244-248 | every slot collected comes from a schedule meeting on that day |
| Conflict.SlotsOnComplete | src/app/course-selector-card/course-selector-card.component.ts:244-248 | every schedule meeting on that day contributes its slot |
| Conflict.Insert | src/app/course-selector-card/course-selector-card.component.ts:255 | one insertion step lengthens the list by one |
| Conflict.InsertPermutes | src/app/course-selector-card/course-selector-card.component.ts:255 | an insertion step adds the slot and keeps all others |
| Conflict.SortByStart | src/app/course-selector-card/course-selector-card.component.ts:255 | the stable sort keeps the length |
| Conflict.SortPermutes | src/app/course-selector-card/course-selector-card.component.ts:255 | the sort is a permutation of the slots |
| Conflict.InsertSorted | src/app/course-selector-card/course-selector-card.component.ts:255 | inserting into a start-sorted list keeps it sorted |
| Conflict.InsertBounded | src/app/course-selector-card/course-selector-card.component.ts:255 | inserting keeps a common bound on the starts |
| Conflict.SortByStartSorted | src/app/course-selector-card/course-selector-card.component.ts:255 | the sort orders slots by start time |
| Conflict.SortSlots | src/app/course-selector-card/course-selector-card.component.ts:255 | in-place `times.sort` by start leaves the stably sorted slots |
| Conflict.SortStep | src/app/course-selector-card/course-selector-card.component.ts:255 | one step of the in-place sort extends the sorted prefix |
| Conflict.InsertLast | src/app/course-selector-card/course-selector-card.component.ts:255 | shifting the next slot into the sorted prefix is an insertion step |
| Conflict.Shifted | src/app/course-selector-card/course-selector-card.component.ts:255 | the shifted array is the prefix split around the inserted slot |
| Conflict.InsertSplit | src/app/course-selector-card/course-selector-card.component.ts:255 | an insertion step puts the slot at its split point |
| Conflict.AdjacentIffPair | src/app/course-selector-card/course-selector-card.component.ts:257-261 | a clash of adjacent sorted slots is a clash of some pair, and conversely for well-formed slots |
| Conflict.TwoPositions | src/app/course-selector-card/course-selector-card.component.ts:257-261 | a slot at two positions occurs twice in the multiset |
| Conflict.TwiceAtTwo | src/app/course-selector-card/course-selector-card.component.ts:257-261 | a slot occurring twice sits at two distinct positions |
| Conflict.PairIffMultiset | src/app/course-selector-card/course-selector-card.component.ts:257-261 | a pairwise clash depends only on the multiset of slots |
| Conflict.WellFormedPermutation | src/app/course-selector-card/course-selector-card.component.ts:255 | well-formed slots (start <= end) stay well-formed when permuted |
| Conflict.SortedClash | src/app/course-selector-card/course-selector-card.component.ts:255-261 | on well-formed slots, an adjacent clash after sorting holds iff two slots overlap, end == start included |
| Conflict.SlotsOnWellFormed | src/app/course-selector-card/course-selector-card.component.ts:244-253 | schedules with start <= end give well-formed slots |
| Conflict.DayConflictSymmetric | src/app/course-selector-card/course-selector-card.component.ts:241-261 | for well-formed schedules, swapping the two sections gives the same answer |
| Conflict.ClashSymmetric | src/app/course-selector-card/course-selector-card.component.ts:242-261 | the test on merged slots does not depend on which section's slots come first |
| Conflict.WellFormedAppend | src/app/course-selector-card/course-selector-card.component.ts:242-253 | merging well-formed slots gives well-formed slots |
| Conflict.DayConflictAlone | src/app/course-selector-card/course-selector-card.component.ts:242-261 | against a section with no meeting that day, only the section's own slots are tested |
| Conflict.SlotsOnNone | src/app/course-selector-card/course-selector-card.component.ts:244-248 | schedules not meeting on a day give no slots |
| Conflict.DayConflict | src/app/course-selector-card/course-selector-card.component.ts:242-261 | one day letter: the merged slots of both sections, sorted by start, have an adjacent clash; `SortedClash` gives its meaning |
| Conflict.SectionConflict | src/app/course-selector-card/course-selector-card.component.ts:239-266 | some selected section clashes on some day letter; `ConflictMeansOverlap` gives its meaning |
| Conflict.EmptySelectionNoConflict | src/app/course-selector-card/course-selector-card.component.ts:239-266 | nothing conflicts with the empty selection |
| Conflict.CollectSlots | src/app/course-selector-card/course-selector-card.component.ts:244-253 | each collecting loop appends the slots of the schedules meeting that day, in order |
| Conflict.HasAdjacentClash | src/app/course-selector-card/course-selector-card.component.ts:257-261 | the scan returns true iff some adjacent pair has `prev.end >= next.start` |
| Conflict.DayClash | src/app/course-selector-card/course-selector-card.component.ts:242-261 | the body for one day computes the day's conflict |
| Conflict.IsSectionConflict | src/app/course-selector-card/course-selector-card.component.ts:239-266 | `isSectionConflict` is true iff some selected section conflicts on some day letter |
| Conflict.ClashesWith | src/app/course-selector-card/course-selector-card.component.ts:241-262 | the day loop is true iff one of U M T W R F S has a conflict |
| Conflict.ConflictMeansOverlap | src/app/course-selector-card/course-selector-card.component.ts:239-266 | for well-formed schedules, a conflict holds iff on some day letter two slots of the merged list overlap |
| CourseSelector.StatusOf | src/app/course-selector-card/course-selector-card.component.ts:220-236 | added iff selected; else conflict iff conflicting; else full iff `cap[1] != 0 && cap[0] >= cap[1]`; never full when `cap[1]` is 0 |
| CourseSelector.SectionFull | src/app/course-selector-card/course-selector-card.component.ts:230 | a section is full when its capacity is non-zero and the enrolment reaches it |
| CourseSelector.StatusWithoutSelection | src/app/course-selector-card/course-selector-card.component.ts:220-236 | with nothing selected a section is full or has no status |
| CourseSelector.CourseStatusAsWritten | src/app/course-selector-card/course-selector-card.component.ts:283-295 | `courseStatus` as written, with the `cap[0]` full test of line 288 |
| CourseSelector.CourseStatus | src/app/course-selector-card/course-selector-card.component.ts:283-295 | `courseStatus` with the section-level full test; `CourseStatusSummarises` gives its meaning |
| CourseSelector.CourseFullAsWrittenDisagrees | src/app/course-selector-card/course-selector-card.component.ts:288 | the course-level full test, as written, calls full a course whose only section is not full |
| CourseSelector.CourseStatusSummarises | src/app/course-selector-card/course-selector-card.component.ts:283-295 | with the section-level full test, the course status is added iff some section is, full only when no section is open, conflict only when all sections conflict |
| CourseSelector.CourseStatusAgrees | src/app/course-selector-card/course-selector-card.component.ts:283-295 | the written and corrected course statuses agree where every capacity is positive or both counts are zero |
| CourseSelector.CourseNumberLevel | src/app/course-selector-card/course-selector-card.component.ts:172-174 | the label ends in "000 Level" and its prefix reads as `k` with `1000k <= n < 1000(k+1)` |
| CourseSelector.RouteOf | src/app/course-selector-card/course-selector-card.component.ts:149-170 | a click on a represented course is forwarded; otherwise full and conflict open their dialogs |
| CourseSelector.SelectedClickForwarded | src/app/course-selector-card/course-selector-card.component.ts:151-154 | a click on a selected section is always forwarded |
| CourseSelector.CourseSelectorCard.constructor | src/app/course-selector-card/course-selector-card.component.ts:36-43 | the info orders start as identities of lengths 5 and 8, with an empty cache |
| CourseSelector.CourseSelectorCard.SelectedSectionsUpdate | src/app/course-selector-card/course-selector-card.component.ts:209-213 | the selection is replaced and the whole cache cleared |
| CourseSelector.CourseSelectorCard.SectionStatus | src/app/course-selector-card/course-selector-card.component.ts:215-237 | a cached status is returned unchanged; otherwise the computed status is cached; either way it is the current selection's status |
| CourseSelector.CourseSelectorCard.SectionClick | src/app/course-selector-card/course-selector-card.component.ts:149-170 | forwarded clicks reach the planner (list, persisted CRNs, cast); dialog clicks change nothing yet; the planner's hover and term stay |
| CourseSelector.CourseSelectorCard.DialogClosed | src/app/course-selector-card/course-selector-card.component.ts:158-165 | a confirmed dialog clicks the section in the planner (list, persisted CRNs, cast); a cancelled one changes none of them; the planner's hover and term stay |
| CourseSelector.CourseSelectorCard.CdkDropListDropped | src/app/course-selector-card/course-selector-card.component.ts:186-207 | the order array is renumbered in place as `Dropped` says |
| Reorder.Dropped | src/app/course-selector-card/course-selector-card.component.ts:190-206 | renumbering keeps the length |
| Reorder.Moved | src/app/section-info-card/section-info-card.component.ts:59-75 | the new position of one entry; `MovedInjective` and `DroppedMoves` are its partners |
| Reorder.Identity | src/app/section-info-card/section-info-card.component.ts:21-23 | `Array(n).fill(null).map((_, i) => i)` is the identity permutation |
| Reorder.DropInPlace | src/app/section-info-card/section-info-card.component.ts:59-75 | the in-place loops compute `Dropped` of the old array |
| Reorder.MovedInjective | src/app/section-info-card/section-info-card.component.ts:59-75 | on positions of 0..n-1, the renumbering stays in range and is injective |
| Reorder.DroppedPermutation | src/app/section-info-card/section-info-card.component.ts:55-76 | a permutation of 0..n-1 stays a permutation |
| Reorder.DroppedMoves | src/app/section-info-card/section-info-card.component.ts:59-75 | prev becomes curr, entries between shift one step toward prev, others stay |
| Reorder.DroppedKeepsOrder | src/app/section-info-card/section-info-card.component.ts:59-75 | items other than the moved one keep their relative order |
| Reorder.DroppedInPlace | src/app/section-info-card/section-info-card.component.ts:59-67 | prev == curr changes nothing |
| Reorder.DroppedUndo | src/app/section-info-card/section-info-card.component.ts:59-75 | dragging back from curr to prev restores the orders |
| Storage.LocalStorage.constructor | src/app/local-storage.service.ts:17-23 | a cleared store holds nothing |
| Storage.LocalStorage.Lookup | src/app/local-storage.service.ts:25-31 | `get` yields the stored value iff the key is present, `null` otherwise |
| Storage.LocalStorage.Get | src/app/local-storage.service.ts:25-31 | `get` is the lookup |
| Storage.LocalStorage.Set | src/app/local-storage.service.ts:33-41 | `set` of an array stores it under the key and changes no other key |
| SectionInfo.Recalled | src/app/section-info-card/section-info-card.component.ts:81-96 | the stored order is taken iff present with the same length, otherwise the current one is kept |
| SectionInfo.RecallSaved | src/app/section-info-card/section-info-card.component.ts:81-102 | recalling what was just saved changes nothing |
| SectionInfo.SectionInfoCard.constructor | src/app/section-info-card/section-info-card.component.ts:21-23 | the three orders start as identity permutations of lengths 6, 5 and 4 |
| SectionInfo.SectionInfoCard.Mouseover | src/app/section-info-card/section-info-card.component.ts:48-53 | the card shows the section at the index, its course and instructor |
| SectionInfo.SectionInfoCard.Drop | src/app/section-info-card/section-info-card.component.ts:55-79 | the orders are renumbered in place (unchanged when prev == curr) and all three are persisted |
| SectionInfo.SectionInfoCard.RecallOrders | src/app/section-info-card/section-info-card.component.ts:81-96 | each order is replaced by its stored value exactly when that has the same length |
| SectionInfo.SectionInfoCard.Recall | src/app/section-info-card/section-info-card.component.ts:82-85 | one recall step yields the stored order or the current array |
| SectionInfo.SectionInfoCard.SaveOrders | src/app/section-info-card/section-info-card.component.ts:98-102 | the three orders are written under their fixed keys |
| SemesterPlanner.Crns | src/app/semester-planner.service.ts:82 | the persisted value is the CRNs of the list, in order |
| SemesterPlanner.Clicked | src/app/semester-planner.service.ts:56-79 | a selected section is removed at its first place; else the first same-course entry is replaced in place; else the section is appended |
| SemesterPlanner.OnePerCourseNoDuplicates | src/app/semester-planner.service.ts:56-79 | one section per course rules out duplicates |
| SemesterPlanner.RemoveOnePerCourse | src/app/semester-planner.service.ts:58-64 | removing an entry keeps one section per course |
| SemesterPlanner.ClickedOnePerCourse | src/app/semester-planner.service.ts:56-79 | every click keeps at most one section per course |
| SemesterPlanner.ClickAllOnePerCourse | src/app/semester-planner.service.ts:56-79 | any click sequence from the empty list yields no duplicates and one section per course |
| SemesterPlanner.ClickTwice | src/app/semester-planner.service.ts:58-78 | clicking a section of an unrepresented course twice restores the list |
| SemesterPlanner.Restored | src/app/semester-planner.service.ts:91-100 | a null stored value gives nothing; otherwise exactly the catalog sections with a stored CRN and the chosen term, in catalog order |
| SemesterPlanner.RestoreAfterSave | src/app/semester-planner.service.ts:81-100 | restoring what was saved gives back every saved section of the term, and only sections with saved CRNs |
| SemesterPlanner.SemesterPlannerService.constructor | src/app/semester-planner.service.ts:12-22 | no hover, an empty list and no term yet |
| SemesterPlanner.SemesterPlannerService.SemesterChosen | src/app/semester-planner.service.ts:25-32 | the chosen term is stored and the selection restored |
| SemesterPlanner.SemesterPlannerService.SectionMouseEnter | src/app/semester-planner.service.ts:46-49 | the hovered section is set and cast |
| SemesterPlanner.SemesterPlannerService.SectionMouseLeave | src/app/semester-planner.service.ts:51-54 | the hover is cleared and cast |
| SemesterPlanner.SemesterPlannerService.SectionClick | src/app/semester-planner.service.ts:56-79 | the list changes as `Clicked` says, its CRNs are persisted and the list is cast |
| SemesterPlanner.SemesterPlannerService.SaveSections | src/app/semester-planner.service.ts:81-84 | the CRNs of the list are stored under the CRN key, which then reads back as them |
| SemesterPlanner.SemesterPlannerService.RestoreSections | src/app/semester-planner.service.ts:86-105 | a no-op without a term or catalog sections; otherwise the list becomes `Restored` and is cast |
| SectionFilterOption.FilterConfig.constructor | src/app/section-filter-card/section-filter-card.component.ts:17-72 | a filter configuration starts with its property, label, flag and text and no options |
| SectionFilterOption.FilterOptions | src/app/section-filter-option/section-filter-option.component.ts:95-100 | the options, in order, whose lower-case form contains the lower-case value |
| SectionFilterOption.FilterEmptyValue | src/app/section-filter-option/section-filter-option.component.ts:95-100 | an empty value offers all options |
| SectionFilterOption.SectionFilterOption.constructor | src/app/section-filter-option/section-filter-option.component.ts:51-56 | the input is enabled iff the filter is checked |
| SectionFilterOption.SectionFilterOption.SlideToggleChange | src/app/section-filter-option/section-filter-option.component.ts:73-77 | the flag and the input state follow the toggle, and an update is cast |
| SectionFilterOption.SectionFilterOption.ValueChanges | src/app/section-filter-option/section-filter-option.component.ts:79-82 | typing sets the text and casts an update |
| SectionFilterOption.SectionFilterOption.FormFiledClick | src/app/section-filter-option/section-filter-option.component.ts:88-93 | a click switches the filter on, and does anything only when it was off |
| SectionFilterOption.SectionFilterOption.SetInputValue | src/app/section-filter-option/section-filter-option.component.ts:102-112 | a cell of another property is ignored; otherwise the filter is on with the cell's text, flashing once |
| SectionFilterOption.SectionFilterOption.Reset | src/app/section-filter-option/section-filter-option.component.ts:119-129 | the filter ends off and empty, flashing iff it was on or had text |
| SectionFilter.CourseNumberOptions | src/app/section-filter-card/section-filter-card.component.ts:128-130 | course-number options are the distinct printed numbers, sorted as strings |
| SectionFilter.CourseNumbers | src/app/section-filter-card/section-filter-card.component.ts:128 | the printed course numbers are exactly the courses' numbers |
| SectionFilter.InstructorNames | src/app/section-filter-card/section-filter-card.component.ts:134-135 | the names are exactly those of sections with an instructor |
| SectionFilter.InstructorOptions | src/app/section-filter-card/section-filter-card.component.ts:134-137 | instructor options are the distinct names, sorted; sections without one contribute nothing |
| SectionFilter.CreditHoursList | src/app/section-filter-card/section-filter-card.component.ts:141-143 | the flattened list holds exactly the minimum and maximum of every section |
| SectionFilter.CreditHourValues | src/app/section-filter-card/section-filter-card.component.ts:141-146 | the distinct credit-hour values, ascending numerically |
| SectionFilter.CreditHourOptions | src/app/section-filter-card/section-filter-card.component.ts:141-147 | each option reads back as the credit-hour value at its place |
| SectionFilter.TagOptions | src/app/section-filter-card/section-filter-card.component.ts:139 | one `code - name` option per tag |
| SectionFilter.AnyContains | src/app/section-filter-card/section-filter-card.component.ts:196 | the tag reduce holds iff some tag contains the text |
| SectionFilter.TextParam | src/app/section-filter-card/section-filter-card.component.ts:170-181 | a text filter's value: its lower-case text when checked, `''` otherwise |
| SectionFilter.NumberParam | src/app/section-filter-card/section-filter-card.component.ts:174-186 | a numeric filter's value: `+inputValue` when checked with text, -1 otherwise |
| SectionFilter.Accepts | src/app/section-filter-card/section-filter-card.component.ts:188-198 | the cast filter function; `UncheckedAcceptsAll`, `TaglessRejected`, `CourseNumberExact` and `CreditHourInclusive` state its behaviour |
| SectionFilter.UncheckedAcceptsAll | src/app/section-filter-card/section-filter-card.component.ts:170-197 | with every filter unchecked only the semester test remains |
| SectionFilter.TaglessRejected | src/app/section-filter-card/section-filter-card.component.ts:196 | a given tag rejects a row without tags |
| SectionFilter.CourseNumberExact | src/app/section-filter-card/section-filter-card.component.ts:193 | the course-number filter accepts only that exact number |
| SectionFilter.CreditHourInclusive | src/app/section-filter-card/section-filter-card.component.ts:197 | the credit-hour filter accepts iff min <= h <= max |
| SectionFilter.SectionFilterCard.constructor | src/app/section-filter-card/section-filter-card.component.ts:17-83 | only the campus filter starts on ("Main Campus"); semester "fall"; years 2020 |
| SectionFilter.SectionFilterCard.CourseDataReady | src/app/section-filter-card/section-filter-card.component.ts:119-150 | the years are copied and every filter gets its option list; flags and texts are kept |
| SectionFilter.SectionFilterCard.SetOptions | src/app/section-filter-card/section-filter-card.component.ts:124-130 | campus, session, subject and course-number options are set and the others kept |
| SectionFilter.SectionFilterCard.SetMoreOptions | src/app/section-filter-card/section-filter-card.component.ts:132-147 | title, instructor, tag and credit-hour options are set and the others kept |
| SectionFilter.SectionFilterCard.CopyYears | src/app/section-filter-card/section-filter-card.component.ts:120-122 | `semesterYears` receives the three years position by position |
| SectionFilter.SectionFilterCard.Params | src/app/section-filter-card/section-filter-card.component.ts:168-186 | unchecked filters contribute `''` or -1 |
| SectionFilter.SectionFilterCard.CastFilterFn | src/app/section-filter-card/section-filter-card.component.ts:167-201 | the filter built from the current filters is cast |
| SectionTable.MinutesOfClock | src/app/section-table-card/section-table-card.component.ts:141-144 | time `h:m` written as HHMM gives `h * 60 + m` minutes |
| SectionTable.MinutesMonotone | src/app/section-table-card/section-table-card.component.ts:141-149 | on valid clock times minutes keep the order of the HHMM integers |
| SectionTable.TimeTextDigits | src/app/section-table-card/section-table-card.component.ts:143 | the text is two hour digits, ':' and two minute digits, reading back as hour and minute |
| SectionTable.NineThirty | src/app/section-table-card/section-table-card.component.ts:141-144 | 930 prints as "09:30" and is 570 minutes |
| SectionTable.Hour | src/app/section-table-card/section-table-card.component.ts:141 | `Math.floor(t / 100)`: with the minute it rebuilds a non-negative time |
| SectionTable.Minute | src/app/section-table-card/section-table-card.component.ts:142 | JavaScript `t % 100`: in 0..99 for non-negative times, in -99..0 for negative ones |
| SectionTable.Minutes | src/app/section-table-card/section-table-card.component.ts:141-148 | `hour * 60 + minute`; `MinutesOfClock` and `MinutesMonotone` state its meaning |
| SectionTable.TimeText | src/app/section-table-card/section-table-card.component.ts:143 | `sprintf('%02d:%02d', hour, minute)`; `TimeTextDigits` states its shape |
| SectionTable.Dark | src/app/section-table-card/section-table-card.component.ts:136-137 | a time is marked dark red at or before 8:00 or at or after 17:00 |
| SectionTable.BuildingLabel | src/app/section-table-card/section-table-card.component.ts:151-158 | a building's code, a name as given, or `''` |
| SectionTable.RowScheduleOf | src/app/section-table-card/section-table-card.component.ts:132-159 | one meeting's row: days, room, both times as text and minutes, dark flags, building label |
| SectionTable.TagText | src/app/section-table-card/section-table-card.component.ts:125 | a tag as `code - name`, both lower-case |
| SectionTable.RowOf | src/app/section-table-card/section-table-card.component.ts:113-179 | the row of a section; `ExtractSectionData` and `CourseDataReady` are proved to build it |
| SectionTable.ExtractSchedules | src/app/section-table-card/section-table-card.component.ts:130-162 | one row meeting per schedule: times, minutes, dark flags (t <= 800 or t >= 1700) and building label |
| SectionTable.ExtractSectionData | src/app/section-table-card/section-table-card.component.ts:113-179 | the row of a section, with its meetings and lower-case tags |
| SectionTable.EarliestStart | src/app/section-table-card/section-table-card.component.ts:200 | none iff there are no meetings; otherwise a meeting's start that no other start undercuts |
| SectionTable.SortingDataAccessor | src/app/section-table-card/section-table-card.component.ts:187-209 | 'times' is the earliest start, Infinity iff no meetings; 'enroll' is Infinity iff no capacity; unknown gives 0 |
| SectionTable.CreditHoursKeyOrder | src/app/section-table-card/section-table-card.component.ts:203-204 | `min * 100 + max` orders by minimum, then maximum, for maxima below 100 |
| SectionTable.SectionTableCard.constructor | src/app/section-table-card/section-table-card.component.ts:24-49 | no rows, mouse-over index 0, timestamps 0 |
| SectionTable.SectionTableCard.CourseDataUpdateAvailable | src/app/section-table-card/section-table-card.component.ts:79-81 | only the update timestamp is set |
| SectionTable.SectionTableCard.CourseDataReady | src/app/section-table-card/section-table-card.component.ts:86-96 | one row per catalog section, in order, each carrying its pool position |
| SectionTable.SectionTableCard.Mouseover | src/app/section-table-card/section-table-card.component.ts:231-238 | the index is cast only when it differs from the last one |
| PrerequisiteHighlight.DepthAppend | src/app/prerequisite-highlight.pipe.ts:67-77 | the counter's movement over two texts adds up |
| PrerequisiteHighlight.ParenClass | src/app/prerequisite-highlight.pipe.ts:67-77 | the class a parenthesis gets: 0, 1 or 2 whenever the counter has not gone below its start |
| PrerequisiteHighlight.Piece | src/app/prerequisite-highlight.pipe.ts:48-51 | what one character becomes and the counter after it |
| PrerequisiteHighlight.Highlighted | src/app/prerequisite-highlight.pipe.ts:48-51 | the parenthesis replacement over a text; `HighlightedLevel`, `HighlightedSplit` and `MatchingSameClass` state its meaning |
| PrerequisiteHighlight.HighlightedLevel | src/app/prerequisite-highlight.pipe.ts:67-77 | the counter moves by the text's depth, so a balanced text leaves it as it was |
| PrerequisiteHighlight.HighlightedSplit | src/app/prerequisite-highlight.pipe.ts:48-51 | each parenthesis is replaced using the counter reached before it |
| PrerequisiteHighlight.MatchingSameClass | src/app/prerequisite-highlight.pipe.ts:67-77 | a `)` gets the class of the `(` it closes |
| PrerequisiteHighlight.TopLevelClassZero | src/app/prerequisite-highlight.pipe.ts:13 | from the initial -1 a top-level `(` gets class 0 |
| PrerequisiteHighlight.Wrapped | src/app/prerequisite-highlight.pipe.ts:54 | the output is the text inside `<span class="prerequisite">…</span>` |
| PrerequisiteHighlight.PrerequisiteHighlightPipe.constructor | src/app/prerequisite-highlight.pipe.ts:13-15 | the counter starts at -1 with an empty cache |
| PrerequisiteHighlight.PrerequisiteHighlightPipe.TransformParenthesis | src/app/prerequisite-highlight.pipe.ts:67-77 | `(` raises the counter and `)` lowers it, each giving its span |
| PrerequisiteHighlight.PrerequisiteHighlightPipe.ReplaceParentheses | src/app/prerequisite-highlight.pipe.ts:48-51 | the parenthesis replacement over a text computes `Highlighted` |
| PrerequisiteHighlight.PrerequisiteHighlightPipe.Transform | src/app/prerequisite-highlight.pipe.ts:24-60 | no transform returns the input; a cached value is returned as is; otherwise the wrapped, highlighted text is cached |
| PrerequisiteHighlight.TransformTwice | src/app/prerequisite-highlight.pipe.ts:31-33 | a second transform of a value returns the first result, whatever the counter holds |
| Calendar.SchedulesEvents | src/app/calendar-card/calendar-card.component.ts:190-205 | one event per (meeting, day letter) |
| Calendar.EventsOf | src/app/calendar-card/calendar-card.component.ts:187-205 | the events number the day letters of all meetings |
| Calendar.SchedulesEventsMeta | src/app/calendar-card/calendar-card.component.ts:194-202 | each event of a section carries the section and its title |
| Calendar.EventsOfMeta | src/app/calendar-card/calendar-card.component.ts:187-205 | every event shows one of the sections, one with a meeting day |
| Calendar.SectionShown | src/app/calendar-card/calendar-card.component.ts:187-205 | every section with a meeting day has an event |
| Calendar.EventsOfAppend | src/app/calendar-card/calendar-card.component.ts:187-205 | the events of one more section come after the others |
| Calendar.HoverAppend | src/app/calendar-card/calendar-card.component.ts:168-169 | pushing a hovered section's events extends the orange tail |
| Calendar.FilterOwnEvents | src/app/calendar-card/calendar-card.component.ts:177 | a section's events survive the hover filter iff it is not the hovered one |
| Calendar.FilterLast | src/app/calendar-card/calendar-card.component.ts:177 | filtering a list ending in one element |
| Calendar.FilterEvents | src/app/calendar-card/calendar-card.component.ts:177 | dropping the hovered section's events is the events of the other sections |
| Calendar.NotShownStep | src/app/calendar-card/calendar-card.component.ts:207-209 | the counter grows by one exactly for a section without events |
| Calendar.NotShown | src/app/calendar-card/calendar-card.component.ts:207-209 | the number of sections without a meeting day, at most the number of sections |
| Calendar.GenerateEvents | src/app/calendar-card/calendar-card.component.ts:183-213 | the events of the sections, and the count of sections that produced none |
| Calendar.PushSectionEvents | src/app/calendar-card/calendar-card.component.ts:188-205 | one section's events are pushed, and `generatedEventTime` holds iff it has a meeting day |
| Calendar.PushScheduleEvents | src/app/calendar-card/calendar-card.component.ts:191-204 | one event per day letter of the meeting is pushed |
| Calendar.Credits | src/app/calendar-card/calendar-card.component.ts:266 | `crs` is the credit value iff min == max, `''` otherwise |
| Calendar.SectionLinesShape | src/app/calendar-card/calendar-card.component.ts:258-289 | max(1, meetings) lines; only the first names the section, the others carry days and times alone |
| Calendar.SectionLines | src/app/calendar-card/calendar-card.component.ts:258-289 | one section's registration-form lines; `SectionLinesShape` states their shape |
| Calendar.CourseInfoLineCount | src/app/calendar-card/calendar-card.component.ts:257-290 | the form has one line per meeting, one per section without meetings, so at least one per section |
| Calendar.CourseInfoLines | src/app/calendar-card/calendar-card.component.ts:254-293 | every section's lines in selection order; `CourseInfoLineCount` states the count |
| Calendar.PlacementBounds | src/app/calendar-card/calendar-card.component.ts:306-323 | each line lands on an existing page, between heights 372 and 540; the last page is not empty |
| Calendar.PageStep | src/app/calendar-card/calendar-card.component.ts:306-311 | a page starts exactly at every eighth line |
| Calendar.PageCount | src/app/calendar-card/calendar-card.component.ts:297-311 | at least one page, and exactly enough groups of eight for the lines |
| Calendar.PlacementOf | src/app/calendar-card/calendar-card.component.ts:306-323 | line `i` on page `i / 8` at height `540 - 24 * (i % 8)`; `PlacementBounds` states its range |
| Calendar.FillRegFormCourseInfo | src/app/calendar-card/calendar-card.component.ts:295-325 | zero lines give one blank page; otherwise one page per eight lines, each line at its placement |
| Calendar.SectionLineAt | src/app/calendar-card/calendar-card.component.ts:274-289 | the line of a meeting: the first names the section, the others are blank |
| Calendar.PushSectionLines | src/app/calendar-card/calendar-card.component.ts:258-289 | one round of the loop pushes the section's lines |
| Calendar.CalendarCard.constructor | src/app/calendar-card/calendar-card.component.ts:22-30 | no events, sections or hover |
| Calendar.CalendarCard.SemesterChosen | src/app/calendar-card/calendar-card.component.ts:109-115 | only the term is stored |
| Calendar.CalendarCard.RemoveSection | src/app/calendar-card/calendar-card.component.ts:138-140 | the section is clicked in the planner: list as `Clicked` says, CRNs persisted, the list cast, hover and term kept |
| Calendar.CalendarCard.SectionsUpdate | src/app/calendar-card/calendar-card.component.ts:154-164 | the selection's events replace all events; a hovered section now selected is cleared |
| Calendar.CalendarCard.HoverSectionEnter | src/app/calendar-card/calendar-card.component.ts:166-173 | entering a selected section does nothing; otherwise its orange events are added |
| Calendar.CalendarCard.ShowHovered | src/app/calendar-card/calendar-card.component.ts:167-172 | an unselected hovered section's events are appended and it becomes the hover |
| Calendar.CalendarCard.HoverSectionLeave | src/app/calendar-card/calendar-card.component.ts:175-181 | leaving removes exactly the hovered section's events and clears the hover |
| Calendar.CalendarCard.GenerateCourseInfoLines | src/app/calendar-card/calendar-card.component.ts:254-293 | the registration-form lines of the selection, section by section |

## Left out

- HTTP downloads, the metadata poll and every timer or debounce (`optionUpdate`, the
  highlight animation's reset, the mouse-enter delay) are not modelled. A download's outcome
  is a parameter of `Save` or `Error`, and the cast filter is modelled as immediate.
- The message bus is reduced to an appended log of casts. Subscriptions, `probe` and
  unsubscription are not modelled.
- `LocalStorageService` is an abstract map. The version handshake and JSON text are not
  modelled, and stored values are lists of integers.
- `Date` arithmetic in `generateEventTime` is not modelled: events keep the day letter and
  the HHMM times.
- PDF drawing, the student-information and miscellaneous form parts, the uuid, the DOM
  (`scrollIntoView`, `innerHTML`, focus) and the dialog widgets are not modelled. For the
  dialogs, only the answer arrives, through `DialogClosed`.
- Floating point is not modelled. The hsl enrolment colour is left out. The enrolment ratio
  and `Infinity` are symbolic sort keys (`Ratio`, `Infinity`), so how they compare is not
  modelled.
- PrerequisiteHighlight.PrerequisiteHighlightPipe.Transform: the four regular-expression
  replacements before the parentheses are a parameter `highlight`.
  RegExp semantics is not modelled.
- `+inputValue` parses only digit strings, optionally with a leading '-'. Anything else is
  NaN in the model, whereas JavaScript also accepts decimals, exponents and whitespace.
- `toLowerCase` is ASCII-only, with no Unicode case mapping.
- Equality is by value, whereas the source compares references (`includes`, `indexOf`, the
  `!==` in the hover filter, the status cache's `Map` key). Two equal sections are therefore
  one section here.
- JSON arity and type errors are not modelled. The decoders require each reference to be a
  valid position or -1, as the source assumes; they do not model the `undefined` that
  JavaScript yields otherwise.
- Calendar.CalendarCard: the calendar's events after several hover-enters without a leave
  are tracked through a ghost list of hovered sections.
- `gotoCourse`, `eventClicked`, `subjectClick`, `courseClick`, `courseDataAvailable`,
  `scheduleBuilding`, the background colours, `cellClick`, `newFilterFnReady`,
  `resetFilters` and `generateRegForm` are not modelled. Each is a cast on the bus, a lookup
  for display, or rendering glue.
- Angular module and routing files, the front page, the section explorer, the semester
  dialog component and the `*.spec.ts` smoke tests are not part of this model.
- SectionFilterOption.SectionFilterOption.SlideToggleChange, SetInputValue and Reset: their `updates` counts are
  the component's own `update()` calls only. The extra emissions of the `FormControl`'s
  `valueChanges` subscription, set off by `setValue`, `enable()` and `disable()`, are not
  counted, because `FormControl` is not modelled.
- `updateButtonClick`, `scrollToTableTop` and the console warning of the table card are not
  modelled. They are DOM and logging glue.
- Ordering.StringLess compares Unicode scalar values, whereas `Array.prototype.sort` compares
  UTF-16 code units. The two differ only on characters outside the Basic Multilingual Plane.
- JsText.ToNumber gives NaN for the empty string, while JavaScript's `+''` is 0. The source
  calls it only on non-empty text (section-filter-card lines 174-186).
- The table, filter and calendar members require every section to be linked to its course
  and subject (`SectionLinked`). On an unlinked section the source throws a TypeError, which
  is not modelled.
- Conflict.SlotsOn: its own contract bounds only the length. Which slots it collects is
  stated by `SlotsOnSound` and `SlotsOnComplete`.

## Findings

| source | as written | input that shows it | evidently intended | confidence | as-written member | corrected member |
|---|---|---|---|---|---|---|
| src/app/course-selector-card/course-selector-card.component.ts:288 | `courseStatus` tests fullness with `s.cap[0] && s.cap[0] >= s.cap[1]` | a course whose only section has cap `[3, 0]` is 'full' at course level, while `sectionStatus` never calls that section full | the section-level test at line 230, `s.cap[1] && s.cap[0] >= s.cap[1]` | not executed | CourseSelector.CourseFullAsWrittenDisagrees | CourseSelector.CourseStatusSummarises |
