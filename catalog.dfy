/** The course catalog of `CourseDataService`: the decoded entities, the raw rows of the
    minimised asset files, the `fromMinJson` decoders with their foreign-key sentinels,
    the fixed asset order, and the pool-by-pool rebuild and relinking done by `expand`.

    Pools are sequences; a reference into the section, course or subject pool is kept as
    a pool index, because those objects are shared and later updated in place by the
    link step. Buildings, departments, employees and tags are never updated after they
    are decoded, so a reference to one of them is kept as a copy of its value. */
module Catalog {
  import opened Seqs

  // ---------------------------------------------------------------- entities

  datatype Building = Building(code: string, name: string)

  datatype Department = Department(
    code: string, name: string, phone: Option<string>, fax: Option<string>,
    email: Option<string>, website: Option<string>, building: Option<Building>)

  datatype Employee = Employee(
    name: string, title: Option<string>, email: string, phone: Option<string>,
    building: Option<Building>, room: Option<string>, department: Option<Department>)

  datatype Tag = Tag(code: string, name: string)

  /** `courses` are positions in the course pool. */
  datatype Subject = Subject(code: string, name: string, courses: seq<nat>)

  /** Where a meeting takes place: a building of the pool, a name kept as given, or nothing. */
  datatype Place = NoPlace | AtBuilding(building: Building) | PlaceName(name: string)

  datatype Schedule = Schedule(days: string, startTime: int, endTime: int, building: Place, room: string)

  /** `sections` are positions in the section pool; `subject` is set by the link step
      (`None` is JavaScript's `undefined`). */
  datatype Course = Course(
    subjectId: int, course: int, campus: string, semester: string, year: int,
    creditHours: (int, int), sections: seq<nat>, title: string, description: Option<string>,
    tags: seq<Tag>, lectureHours: int, labHours: Option<int>, level: string,
    scheduleTypes: seq<string>, restrictions: seq<string>, prerequisite: Option<string>,
    courseAttributes: seq<string>, subject: Option<nat>)

  /** `cap` is (enrolled, capacity); `course` is set by the link step. */
  datatype Section = Section(
    campus: string, semester: string, year: int, crn: int, courseId: int, section: string,
    creditHours: (int, int), cap: (int, int), waitListSeats: (int, int), title: string,
    notes: seq<string>, session: Option<string>, instructor: Option<Employee>,
    syllabus: Option<string>, crossListCourses: seq<(string, int)>, schedules: seq<Schedule>,
    level: string, restrictions: seq<string>, course: Option<nat>)

  // ---------------------------------------------------------------- raw rows

  datatype BuildingRow = BuildingRow(code: string, name: string)
  datatype DepartmentRow = DepartmentRow(
    code: string, name: string, phone: Option<string>, fax: Option<string>,
    email: Option<string>, website: Option<string>, buildingId: int)
  datatype EmployeeRow = EmployeeRow(
    name: string, title: Option<string>, email: string, phone: Option<string>,
    buildingId: int, room: Option<string>, departmentId: int)
  datatype TagRow = TagRow(code: string, name: string)
  datatype SubjectRow = SubjectRow(code: string, name: string, courseIdStart: int, courseIdEnd: int)

  /** The fourth element of a schedule tuple: a building number, a string, or `null`. */
  datatype RawBuilding = BuildingId(id: int) | BuildingName(name: string) | NoBuilding
  datatype ScheduleRow = ScheduleRow(days: string, startTime: int, endTime: int, building: RawBuilding, room: string)

  datatype CourseRow = CourseRow(
    subjectId: int, course: int, campusId: int, semesterId: int, year: int,
    creditHours: (int, int), sectionIds: seq<int>, titleId: int, descriptionId: int,
    tagIds: seq<int>, lectureHours: int, labHours: Option<int>, levelId: int,
    scheduleTypeIds: seq<int>, restrictionIds: seq<int>, prerequisiteId: int,
    courseAttributeIds: seq<int>)

  datatype SectionRow = SectionRow(
    campusId: int, semesterId: int, year: int, crn: int, courseId: int, section: string,
    creditHours: (int, int), cap: (int, int), waitListSeats: (int, int), titleId: int,
    noteIds: seq<int>, sessionId: int, instructorId: int, syllabus: Option<string>,
    crossListCourses: seq<(string, int)>, schedules: seq<ScheduleRow>, levelId: int,
    restrictionIds: seq<int>)

  /** One value of an asset file: a plain string, or the positional fields of a record. */
  datatype Item =
    | TextItem(text: string)
    | BuildingItem(building: BuildingRow)
    | DepartmentItem(department: DepartmentRow)
    | EmployeeItem(employee: EmployeeRow)
    | TagItem(tag: TagRow)
    | SubjectItem(subject: SubjectRow)
    | CourseItem(course: CourseRow)
    | SectionItem(section: SectionRow)

  // ---------------------------------------------------------------- references

  /** A foreign key that is `-1` or a position of `pool`. */
  predicate IdOk<T>(pool: seq<T>, id: int) { id == -1 || 0 <= id < |pool| }

  /** A list of positions of `pool` (no sentinel). */
  predicate IdsOk<T>(pool: seq<T>, ids: seq<int>) { forall k :: 0 <= k < |ids| ==> 0 <= ids[k] < |pool| }

  /** A nullable reference: `-1` is `null`. */
  function Ref<T>(pool: seq<T>, id: int): (r: Option<T>)
    requires IdOk(pool, id)
    ensures r.None? <==> id == -1
    ensures id != -1 ==> r == Some(pool[id])
  {
    if id == -1 then None else Some(pool[id])
  }

  /** A string reference whose sentinel `-1` yields the empty string. */
  function TextRef(pool: seq<string>, id: int): (r: string)
    requires IdOk(pool, id)
    ensures id == -1 ==> r == ""
    ensures id != -1 ==> r == pool[id]
  {
    if id == -1 then "" else pool[id]
  }

  /** `ids.map(id => pool[id])`. */
  function Refs<T>(pool: seq<T>, ids: seq<int>): (r: seq<T>)
    requires IdsOk(pool, ids)
    ensures |r| == |ids|
    ensures forall k :: 0 <= k < |ids| ==> r[k] == pool[ids[k]]
  {
    seq(|ids|, k requires 0 <= k < |ids| => pool[ids[k]])
  }

  /** `['spring', 'summer', 'fall'][id]`, with `-1` giving the empty string. */
  function SemesterName(id: int): (r: string)
    requires -1 <= id < 3
    ensures id == -1 <==> r == ""
  {
    if id == -1 then "" else ["spring", "summer", "fall"][id]
  }

  // The encoders below are the inverse of the references: they find a value's position.

  function IdOf<T(==)>(pool: seq<T>, x: Option<T>): int {
    match x
    case None => -1
    case Some(v) => IndexOf(pool, v)
  }

  function TextIdOf(pool: seq<string>, x: string): int {
    if x in pool then IndexOf(pool, x) else -1
  }

  function IdsOf<T(==)>(pool: seq<T>, xs: seq<T>): seq<int> {
    seq(|xs|, k requires 0 <= k < |xs| => IndexOf(pool, xs[k]))
  }

  function SemesterId(name: string): int {
    if name == "spring" then 0 else if name == "summer" then 1 else if name == "fall" then 2 else -1
  }

  predicate OptIn<T(==)>(pool: seq<T>, x: Option<T>) { x.Some? ==> x.value in pool }
  predicate AllIn<T(==)>(pool: seq<T>, xs: seq<T>) { forall k :: 0 <= k < |xs| ==> xs[k] in pool }
  predicate IsSemester(name: string) { name in {"", "spring", "summer", "fall"} }

  lemma RefRoundTrip<T>(pool: seq<T>, x: Option<T>)
    requires OptIn(pool, x)
    ensures IdOk(pool, IdOf(pool, x)) && Ref(pool, IdOf(pool, x)) == x
  {
  }

  lemma TextRefRoundTrip(pool: seq<string>, x: string)
    requires x in pool || x == ""
    ensures IdOk(pool, TextIdOf(pool, x)) && TextRef(pool, TextIdOf(pool, x)) == x
  {
  }

  lemma RefsRoundTrip<T>(pool: seq<T>, xs: seq<T>)
    requires AllIn(pool, xs)
    ensures IdsOk(pool, IdsOf(pool, xs)) && Refs(pool, IdsOf(pool, xs)) == xs
  {
  }

  lemma SemesterRoundTrip(name: string)
    requires IsSemester(name)
    ensures -1 <= SemesterId(name) < 3 && SemesterName(SemesterId(name)) == name
  {
  }

  /** The positional decoding of the semester id. */
  lemma SemesterNames()
    ensures SemesterName(0) == "spring" && SemesterName(1) == "summer" && SemesterName(2) == "fall"
  {
  }

  // ---------------------------------------------------------------- assets and pools

  datatype Asset =
    | BuildingFile | CampusFile | CourseAttributeFile | DepartmentFile | DescriptionFile
    | EmployeeFile | LevelFile | NoteFile | PrerequisiteFile | RequirementFile
    | RestrictionFile | ScheduleTypeFile | SessionFile | TagFile | TitleFile
    | SectionFile | CourseFile | SubjectFile

  /** The order in which the asset files are fetched and expanded. */
  const AssetOrder: seq<Asset> := [
    BuildingFile, CampusFile, CourseAttributeFile, DepartmentFile, DescriptionFile,
    EmployeeFile, LevelFile, NoteFile, PrerequisiteFile, RequirementFile,
    RestrictionFile, ScheduleTypeFile, SessionFile, TagFile, TitleFile,
    SectionFile, CourseFile, SubjectFile]

  const AssetCount := 18

  /** The position of an asset in `AssetOrder`. */
  function Index(a: Asset): (i: nat)
    ensures i < AssetCount
  {
    match a
    case BuildingFile => 0
    case CampusFile => 1
    case CourseAttributeFile => 2
    case DepartmentFile => 3
    case DescriptionFile => 4
    case EmployeeFile => 5
    case LevelFile => 6
    case NoteFile => 7
    case PrerequisiteFile => 8
    case RequirementFile => 9
    case RestrictionFile => 10
    case ScheduleTypeFile => 11
    case SessionFile => 12
    case TagFile => 13
    case TitleFile => 14
    case SectionFile => 15
    case CourseFile => 16
    case SubjectFile => 17
  }

  function Path(a: Asset): string {
    match a
    case BuildingFile => "building.min.json"
    case CampusFile => "campus.min.json"
    case CourseAttributeFile => "courseAttribute.min.json"
    case DepartmentFile => "department.min.json"
    case DescriptionFile => "description.min.json"
    case EmployeeFile => "employee.min.json"
    case LevelFile => "level.min.json"
    case NoteFile => "note.min.json"
    case PrerequisiteFile => "prerequisite.min.json"
    case RequirementFile => "requirement.min.json"
    case RestrictionFile => "restriction.min.json"
    case ScheduleTypeFile => "scheduleType.min.json"
    case SessionFile => "session.min.json"
    case TagFile => "tag.min.json"
    case TitleFile => "title.min.json"
    case SectionFile => "section.min.json"
    case CourseFile => "course3.min.json"
    case SubjectFile => "subject.min.json"
  }

  /** Every asset appears exactly once in the order, so each position names a distinct asset. */
  lemma AssetOrderIndex(i: nat)
    requires i < AssetCount
    ensures Index(AssetOrder[i]) == i
  {
  }

  lemma IndexInOrder(a: Asset)
    ensures AssetOrder[Index(a)] == a
  {
  }

  /** Distinct assets have distinct positions. */
  lemma IndexInjective(a: Asset, b: Asset)
    requires a != b
    ensures Index(a) != Index(b)
  {
    IndexInOrder(a);
    IndexInOrder(b);
  }

  /** Distinct assets have distinct paths, so the cache keeps them apart. */
  lemma PathsDistinct(a: Asset, b: Asset)
    requires a != b
    ensures Path(a) != Path(b)
  {
  }

  /** The contents of one pool property, tagged with its element type. */
  datatype Pool =
    | Buildings(buildings: seq<Building>) | Texts(texts: seq<string>)
    | Departments(departments: seq<Department>) | Employees(employees: seq<Employee>)
    | Tags(tags: seq<Tag>) | Sections(sections: seq<Section>) | Courses(courses: seq<Course>)
    | Subjects(subjects: seq<Subject>)

  function PoolSize(p: Pool): nat {
    match p
    case Buildings(xs) => |xs|
    case Texts(xs) => |xs|
    case Departments(xs) => |xs|
    case Employees(xs) => |xs|
    case Tags(xs) => |xs|
    case Sections(xs) => |xs|
    case Courses(xs) => |xs|
    case Subjects(xs) => |xs|
  }

  /** `p` holds entries of the type that `fromMinJson` of asset `a` produces. */
  predicate HasKind(p: Pool, a: Asset) {
    match a
    case BuildingFile => p.Buildings?
    case DepartmentFile => p.Departments?
    case EmployeeFile => p.Employees?
    case TagFile => p.Tags?
    case SectionFile => p.Sections?
    case CourseFile => p.Courses?
    case SubjectFile => p.Subjects?
    case _ => p.Texts?
  }

  /** The pool of asset `a` with no entries (`property.length = 0`). */
  function EmptyPool(a: Asset): (p: Pool)
    ensures HasKind(p, a) && PoolSize(p) == 0
  {
    match a
    case BuildingFile => Buildings([])
    case DepartmentFile => Departments([])
    case EmployeeFile => Employees([])
    case TagFile => Tags([])
    case SectionFile => Sections([])
    case CourseFile => Courses([])
    case SubjectFile => Subjects([])
    case _ => Texts([])
  }

  // The entries of a pool of the expected type (a pool of another type reads as empty).

  function BuildingsOf(p: Pool): seq<Building> { if p.Buildings? then p.buildings else [] }
  function TextsOf(p: Pool): seq<string> { if p.Texts? then p.texts else [] }
  function DepartmentsOf(p: Pool): seq<Department> { if p.Departments? then p.departments else [] }
  function EmployeesOf(p: Pool): seq<Employee> { if p.Employees? then p.employees else [] }
  function TagsOf(p: Pool): seq<Tag> { if p.Tags? then p.tags else [] }
  function SectionsOf(p: Pool): seq<Section> { if p.Sections? then p.sections else [] }
  function CoursesOf(p: Pool): seq<Course> { if p.Courses? then p.courses else [] }
  function SubjectsOf(p: Pool): seq<Subject> { if p.Subjects? then p.subjects else [] }

  /** One pool per asset, at the asset's position in the order. */
  type Pools = s: seq<Pool> | |s| == AssetCount
    witness [Texts([]), Texts([]), Texts([]), Texts([]), Texts([]), Texts([]), Texts([]), Texts([]), Texts([]),
             Texts([]), Texts([]), Texts([]), Texts([]), Texts([]), Texts([]), Texts([]), Texts([]), Texts([])]

  // ---------------------------------------------------------------- the catalog

  /** The eighteen pool properties of `CourseDataService`, kept in the asset order, which is
      how `expand` addresses them (`assetAttribute.property`); each accessor is named after
      the property it stands for. */
  datatype Catalog = Catalog(pools: Pools) {
    function buildings(): seq<Building> { BuildingsOf(pools[0]) }
    function campuses(): seq<string> { TextsOf(pools[1]) }
    function courseAttributes(): seq<string> { TextsOf(pools[2]) }
    function departments(): seq<Department> { DepartmentsOf(pools[3]) }
    function descriptions(): seq<string> { TextsOf(pools[4]) }
    function employees(): seq<Employee> { EmployeesOf(pools[5]) }
    function levels(): seq<string> { TextsOf(pools[6]) }
    function notes(): seq<string> { TextsOf(pools[7]) }
    function prerequisites(): seq<string> { TextsOf(pools[8]) }
    function requirements(): seq<string> { TextsOf(pools[9]) }
    function restrictions(): seq<string> { TextsOf(pools[10]) }
    function scheduleTypes(): seq<string> { TextsOf(pools[11]) }
    function sessions(): seq<string> { TextsOf(pools[12]) }
    function tags(): seq<Tag> { TagsOf(pools[13]) }
    function titles(): seq<string> { TextsOf(pools[14]) }
    function sections(): seq<Section> { SectionsOf(pools[15]) }
    function courses(): seq<Course> { CoursesOf(pools[16]) }
    function subjects(): seq<Subject> { SubjectsOf(pools[17]) }
  }

  function PoolAt(c: Catalog, a: Asset): Pool {
    c.pools[Index(a)]
  }

  /** Every property starts out as an empty array of its type. */
  const EmptyCatalog: Catalog := Catalog([
    Buildings([]), Texts([]), Texts([]), Departments([]), Texts([]), Employees([]), Texts([]), Texts([]), Texts([]),
    Texts([]), Texts([]), Texts([]), Texts([]), Tags([]), Texts([]), Sections([]), Courses([]), Subjects([])])

  // ---------------------------------------------------------------- decoders

  function DecodeBuilding(row: BuildingRow): Building {
    Building(row.code, row.name)
  }

  function DecodeTag(row: TagRow): Tag {
    Tag(row.code, row.name)
  }

  predicate DepartmentRowOk(c: Catalog, row: DepartmentRow) { IdOk(c.buildings(), row.buildingId) }

  function DecodeDepartment(c: Catalog, row: DepartmentRow): Department
    requires DepartmentRowOk(c, row)
  {
    Department(row.code, row.name, row.phone, row.fax, row.email, row.website, Ref(c.buildings(), row.buildingId))
  }

  predicate EmployeeRowOk(c: Catalog, row: EmployeeRow) {
    IdOk(c.buildings(), row.buildingId) && IdOk(c.departments(), row.departmentId)
  }

  function DecodeEmployee(c: Catalog, row: EmployeeRow): Employee
    requires EmployeeRowOk(c, row)
  {
    Employee(row.name, row.title, row.email, row.phone, Ref(c.buildings(), row.buildingId),
             row.room, Ref(c.departments(), row.departmentId))
  }

  /** JavaScript's `slice` bound: a negative bound counts from the end, then both are clamped. */
  function SliceBound(i: int, n: nat): (r: nat)
    ensures r <= n
    ensures 0 <= i <= n ==> r == i
  {
    if i < 0 then (if n + i < 0 then 0 else n + i) else if i > n then n else i
  }

  /** The positions `pool.slice(start, end)` keeps, for a pool of size `n`. */
  function SlicePositions(start: int, end: int, n: nat): (r: seq<nat>)
    ensures forall k :: 0 <= k < |r| ==> r[k] < n
    ensures forall k :: 0 < k < |r| ==> r[k] == r[k - 1] + 1
    ensures 0 <= start <= end <= n ==> |r| == end - start && forall k :: 0 <= k < |r| ==> r[k] == start + k
  {
    var lo := SliceBound(start, n);
    var hi := SliceBound(end, n);
    if lo >= hi then [] else seq(hi - lo, k requires 0 <= k < hi - lo => lo + k)
  }

  function DecodeSubject(c: Catalog, row: SubjectRow): (r: Subject)
    ensures r.code == row.code && r.name == row.name
    ensures forall k :: 0 <= k < |r.courses| ==> r.courses[k] < |c.courses()|
  {
    Subject(row.code, row.name, SlicePositions(row.courseIdStart, row.courseIdEnd, |c.courses()|))
  }

  predicate CourseRowOk(c: Catalog, row: CourseRow) {
    && IdOk(c.campuses(), row.campusId) && -1 <= row.semesterId < 3
    && IdsOk(c.sections(), row.sectionIds) && IdOk(c.titles(), row.titleId)
    && IdOk(c.descriptions(), row.descriptionId) && IdsOk(c.tags(), row.tagIds)
    && 0 <= row.levelId < |c.levels()| && IdsOk(c.scheduleTypes(), row.scheduleTypeIds)
    && IdsOk(c.restrictions(), row.restrictionIds) && IdOk(c.prerequisites(), row.prerequisiteId)
    && IdsOk(c.courseAttributes(), row.courseAttributeIds)
  }

  function DecodeCourse(c: Catalog, row: CourseRow): (r: Course)
    requires CourseRowOk(c, row)
    ensures r.subject == None
  {
    Course(row.subjectId, row.course, TextRef(c.campuses(), row.campusId), SemesterName(row.semesterId),
           row.year, row.creditHours, seq(|row.sectionIds|, k requires 0 <= k < |row.sectionIds| => row.sectionIds[k] as nat),
           TextRef(c.titles(), row.titleId), Ref(c.descriptions(), row.descriptionId),
           Refs(c.tags(), row.tagIds), row.lectureHours, row.labHours, c.levels()[row.levelId],
           Refs(c.scheduleTypes(), row.scheduleTypeIds), Refs(c.restrictions(), row.restrictionIds),
           Ref(c.prerequisites(), row.prerequisiteId), Refs(c.courseAttributes(), row.courseAttributeIds),
           None)
  }

  predicate ScheduleRowOk(c: Catalog, row: ScheduleRow) {
    row.building.BuildingId? ==> 0 <= row.building.id < |c.buildings()|
  }

  /** A numeric building is looked up in the building pool; anything else is kept as given. */
  function DecodeSchedule(c: Catalog, row: ScheduleRow): (r: Schedule)
    requires ScheduleRowOk(c, row)
  {
    var place := match row.building
      case BuildingId(id) => AtBuilding(c.buildings()[id])
      case BuildingName(name) => PlaceName(name)
      case NoBuilding => NoPlace;
    Schedule(row.days, row.startTime, row.endTime, place, row.room)
  }

  predicate SectionRowOk(c: Catalog, row: SectionRow) {
    && IdOk(c.campuses(), row.campusId) && -1 <= row.semesterId < 3
    && IdOk(c.titles(), row.titleId) && IdsOk(c.notes(), row.noteIds)
    && IdOk(c.sessions(), row.sessionId) && IdOk(c.employees(), row.instructorId)
    && (forall k :: 0 <= k < |row.schedules| ==> ScheduleRowOk(c, row.schedules[k]))
    && 0 <= row.levelId < |c.levels()| && IdsOk(c.restrictions(), row.restrictionIds)
  }

  function DecodeSection(c: Catalog, row: SectionRow): (r: Section)
    requires SectionRowOk(c, row)
    ensures r.course == None && |r.schedules| == |row.schedules|
  {
    Section(TextRef(c.campuses(), row.campusId), SemesterName(row.semesterId), row.year, row.crn,
            row.courseId, row.section, row.creditHours, row.cap, row.waitListSeats,
            TextRef(c.titles(), row.titleId), Refs(c.notes(), row.noteIds), Ref(c.sessions(), row.sessionId),
            Ref(c.employees(), row.instructorId), row.syllabus, row.crossListCourses,
            seq(|row.schedules|, k requires 0 <= k < |row.schedules| => DecodeSchedule(c, row.schedules[k])),
            c.levels()[row.levelId], Refs(c.restrictions(), row.restrictionIds), None)
  }

  // ---------------------------------------------------------------- encoders (inverse)

  function EncodeDepartment(c: Catalog, d: Department): DepartmentRow {
    DepartmentRow(d.code, d.name, d.phone, d.fax, d.email, d.website, IdOf(c.buildings(), d.building))
  }

  function EncodeEmployee(c: Catalog, e: Employee): EmployeeRow {
    EmployeeRow(e.name, e.title, e.email, e.phone, IdOf(c.buildings(), e.building), e.room,
                IdOf(c.departments(), e.department))
  }

  function EncodeSchedule(c: Catalog, s: Schedule): ScheduleRow {
    var building := match s.building
      case AtBuilding(b) => BuildingId(IndexOf(c.buildings(), b))
      case PlaceName(name) => BuildingName(name)
      case NoPlace => NoBuilding;
    ScheduleRow(s.days, s.startTime, s.endTime, building, s.room)
  }

  function EncodeCourse(c: Catalog, x: Course): CourseRow {
    CourseRow(x.subjectId, x.course, TextIdOf(c.campuses(), x.campus), SemesterId(x.semester), x.year,
              x.creditHours, seq(|x.sections|, k requires 0 <= k < |x.sections| => x.sections[k] as int),
              TextIdOf(c.titles(), x.title), IdOf(c.descriptions(), x.description), IdsOf(c.tags(), x.tags),
              x.lectureHours, x.labHours, IndexOf(c.levels(), x.level), IdsOf(c.scheduleTypes(), x.scheduleTypes),
              IdsOf(c.restrictions(), x.restrictions), IdOf(c.prerequisites(), x.prerequisite),
              IdsOf(c.courseAttributes(), x.courseAttributes))
  }

  function EncodeSection(c: Catalog, s: Section): SectionRow {
    SectionRow(TextIdOf(c.campuses(), s.campus), SemesterId(s.semester), s.year, s.crn, s.courseId,
               s.section, s.creditHours, s.cap, s.waitListSeats, TextIdOf(c.titles(), s.title),
               IdsOf(c.notes(), s.notes), IdOf(c.sessions(), s.session), IdOf(c.employees(), s.instructor),
               s.syllabus, s.crossListCourses,
               seq(|s.schedules|, k requires 0 <= k < |s.schedules| => EncodeSchedule(c, s.schedules[k])),
               IndexOf(c.levels(), s.level), IdsOf(c.restrictions(), s.restrictions))
  }

  /** Every value a department refers to is in the pools. */
  predicate DepartmentInPools(c: Catalog, d: Department) { OptIn(c.buildings(), d.building) }

  predicate EmployeeInPools(c: Catalog, e: Employee) {
    OptIn(c.buildings(), e.building) && OptIn(c.departments(), e.department)
  }

  predicate ScheduleInPools(c: Catalog, s: Schedule) {
    s.building.AtBuilding? ==> s.building.building in c.buildings()
  }

  predicate CourseInPools(c: Catalog, x: Course) {
    && (x.campus in c.campuses() || x.campus == "") && IsSemester(x.semester)
    && (forall k :: 0 <= k < |x.sections| ==> x.sections[k] < |c.sections()|)
    && (x.title in c.titles() || x.title == "") && OptIn(c.descriptions(), x.description)
    && AllIn(c.tags(), x.tags) && x.level in c.levels() && AllIn(c.scheduleTypes(), x.scheduleTypes)
    && AllIn(c.restrictions(), x.restrictions) && OptIn(c.prerequisites(), x.prerequisite)
    && AllIn(c.courseAttributes(), x.courseAttributes)
  }

  predicate SectionInPools(c: Catalog, s: Section) {
    && (s.campus in c.campuses() || s.campus == "") && IsSemester(s.semester)
    && (s.title in c.titles() || s.title == "") && AllIn(c.notes(), s.notes)
    && OptIn(c.sessions(), s.session) && OptIn(c.employees(), s.instructor)
    && (forall k :: 0 <= k < |s.schedules| ==> ScheduleInPools(c, s.schedules[k]))
    && s.level in c.levels() && AllIn(c.restrictions(), s.restrictions)
  }

  /** Decoding loses nothing: a department re-encoded against the pools decodes back to itself. */
  lemma DepartmentRoundTrip(c: Catalog, d: Department)
    requires DepartmentInPools(c, d)
    ensures DepartmentRowOk(c, EncodeDepartment(c, d)) && DecodeDepartment(c, EncodeDepartment(c, d)) == d
  {
    RefRoundTrip(c.buildings(), d.building);
  }

  lemma EmployeeRoundTrip(c: Catalog, e: Employee)
    requires EmployeeInPools(c, e)
    ensures EmployeeRowOk(c, EncodeEmployee(c, e)) && DecodeEmployee(c, EncodeEmployee(c, e)) == e
  {
    RefRoundTrip(c.buildings(), e.building);
    RefRoundTrip(c.departments(), e.department);
  }

  /** An unlinked course survives encoding and decoding unchanged. */
  lemma {:induction false} CourseRoundTrip(c: Catalog, x: Course)
    requires CourseInPools(c, x) && x.subject == None
    ensures CourseRowOk(c, EncodeCourse(c, x)) && DecodeCourse(c, EncodeCourse(c, x)) == x
  {
    var row := EncodeCourse(c, x);
    TextRefRoundTrip(c.campuses(), x.campus);
    SemesterRoundTrip(x.semester);
    TextRefRoundTrip(c.titles(), x.title);
    RefRoundTrip(c.descriptions(), x.description);
    RefsRoundTrip(c.tags(), x.tags);
    RefsRoundTrip(c.scheduleTypes(), x.scheduleTypes);
    RefsRoundTrip(c.restrictions(), x.restrictions);
    RefRoundTrip(c.prerequisites(), x.prerequisite);
    RefsRoundTrip(c.courseAttributes(), x.courseAttributes);
    assert CourseRowOk(c, row);
    var sections := seq(|row.sectionIds|, k requires 0 <= k < |row.sectionIds| => row.sectionIds[k] as nat);
    assert sections == x.sections;
  }

  lemma {:induction false} SectionRoundTrip(c: Catalog, s: Section)
    requires SectionInPools(c, s) && s.course == None
    ensures SectionRowOk(c, EncodeSection(c, s)) && DecodeSection(c, EncodeSection(c, s)) == s
  {
    var row := EncodeSection(c, s);
    TextRefRoundTrip(c.campuses(), s.campus);
    SemesterRoundTrip(s.semester);
    TextRefRoundTrip(c.titles(), s.title);
    RefsRoundTrip(c.notes(), s.notes);
    RefRoundTrip(c.sessions(), s.session);
    RefRoundTrip(c.employees(), s.instructor);
    RefsRoundTrip(c.restrictions(), s.restrictions);
    forall k | 0 <= k < |row.schedules|
      ensures ScheduleRowOk(c, row.schedules[k]) && DecodeSchedule(c, row.schedules[k]) == s.schedules[k]
    {
      assert ScheduleInPools(c, s.schedules[k]);
    }
    assert SectionRowOk(c, row);
    var schedules := seq(|row.schedules|, k requires 0 <= k < |row.schedules| => DecodeSchedule(c, row.schedules[k]));
    assert schedules == s.schedules;
  }

  // ---------------------------------------------------------------- fromMinJson

  /** What a `fromMinJson` returns: one decoded value, tagged with its type. */
  datatype Entry =
    | BuildingEntry(building: Building) | TextEntry(text: string)
    | DepartmentEntry(department: Department) | EmployeeEntry(employee: Employee)
    | TagEntry(tag: Tag) | SectionEntry(section: Section) | CourseEntry(course: Course)
    | SubjectEntry(subject: Subject)

  /** `e` has the type of the entries of asset `a`'s pool. */
  predicate EntryFits(e: Entry, a: Asset) {
    match a
    case BuildingFile => e.BuildingEntry?
    case DepartmentFile => e.DepartmentEntry?
    case EmployeeFile => e.EmployeeEntry?
    case TagFile => e.TagEntry?
    case SectionFile => e.SectionEntry?
    case CourseFile => e.CourseEntry?
    case SubjectFile => e.SubjectEntry?
    case _ => e.TextEntry?
  }

  /** `item` is a value of the right shape for asset `a` whose references are in range. */
  predicate Fits(c: Catalog, a: Asset, item: Item) {
    match a
    case BuildingFile => item.BuildingItem?
    case DepartmentFile => item.DepartmentItem? && DepartmentRowOk(c, item.department)
    case EmployeeFile => item.EmployeeItem? && EmployeeRowOk(c, item.employee)
    case TagFile => item.TagItem?
    case SectionFile => item.SectionItem? && SectionRowOk(c, item.section)
    case CourseFile => item.CourseItem? && CourseRowOk(c, item.course)
    case SubjectFile => item.SubjectItem?
    case _ => item.TextItem?
  }

  /** The `fromMinJson` of the asset table: `copyString` for the string pools, the entity
      decoders for the others. */
  function FromMinJson(c: Catalog, a: Asset, item: Item): (e: Entry)
    requires Fits(c, a, item)
    ensures EntryFits(e, a)
  {
    match a
    case BuildingFile => BuildingEntry(DecodeBuilding(item.building))
    case DepartmentFile => DepartmentEntry(DecodeDepartment(c, item.department))
    case EmployeeFile => EmployeeEntry(DecodeEmployee(c, item.employee))
    case TagFile => TagEntry(DecodeTag(item.tag))
    case SectionFile => SectionEntry(DecodeSection(c, item.section))
    case CourseFile => CourseEntry(DecodeCourse(c, item.course))
    case SubjectFile => SubjectEntry(DecodeSubject(c, item.subject))
    case _ => TextEntry(item.text)
  }

  /** The two catalogs agree on the pools at the first `i` positions of the order. */
  predicate AgreeBefore(c1: Catalog, c2: Catalog, i: nat) {
    forall j :: 0 <= j < i && j < AssetCount ==> c1.pools[j] == c2.pools[j]
  }

  /** The two catalogs agree on every pool except possibly the pool of asset `a`. */
  predicate AgreeExcept(c1: Catalog, c2: Catalog, a: Asset) {
    forall j :: 0 <= j < AssetCount && j != Index(a) ==> c1.pools[j] == c2.pools[j]
  }

  /** Catalogs that agree on every pool are equal. */
  lemma AgreeAll(c1: Catalog, c2: Catalog)
    requires AgreeBefore(c1, c2, AssetCount)
    ensures c1 == c2
  {
    assert c1.pools == c2.pools;
  }

  lemma AgreeExceptPool(c1: Catalog, c2: Catalog, a: Asset, b: Asset)
    requires AgreeExcept(c1, c2, a) && b != a
    ensures PoolAt(c1, b) == PoolAt(c2, b)
  {
    IndexInjective(a, b);
  }

  /** The pools `Section.fromMinJson` reads are all before the section pool. */
  lemma SectionInputs(c1: Catalog, c2: Catalog)
    requires AgreeBefore(c1, c2, Index(SectionFile))
    ensures c1.campuses() == c2.campuses() && c1.titles() == c2.titles() && c1.notes() == c2.notes()
    ensures c1.sessions() == c2.sessions() && c1.employees() == c2.employees()
    ensures c1.buildings() == c2.buildings() && c1.levels() == c2.levels() && c1.restrictions() == c2.restrictions()
  {
    assert c1.pools[1] == c2.pools[1] && c1.pools[14] == c2.pools[14] && c1.pools[7] == c2.pools[7];
    assert c1.pools[12] == c2.pools[12] && c1.pools[5] == c2.pools[5] && c1.pools[0] == c2.pools[0];
    assert c1.pools[6] == c2.pools[6] && c1.pools[10] == c2.pools[10];
  }

  /** The pools `Course.fromMinJson` reads are all before the course pool. */
  lemma CourseInputs(c1: Catalog, c2: Catalog)
    requires AgreeBefore(c1, c2, Index(CourseFile))
    ensures c1.campuses() == c2.campuses() && c1.sections() == c2.sections() && c1.titles() == c2.titles()
    ensures c1.descriptions() == c2.descriptions() && c1.tags() == c2.tags() && c1.levels() == c2.levels()
    ensures c1.scheduleTypes() == c2.scheduleTypes() && c1.restrictions() == c2.restrictions()
    ensures c1.prerequisites() == c2.prerequisites() && c1.courseAttributes() == c2.courseAttributes()
  {
    assert c1.pools[1] == c2.pools[1] && c1.pools[15] == c2.pools[15] && c1.pools[14] == c2.pools[14];
    assert c1.pools[4] == c2.pools[4] && c1.pools[13] == c2.pools[13] && c1.pools[6] == c2.pools[6];
    assert c1.pools[11] == c2.pools[11] && c1.pools[10] == c2.pools[10];
    assert c1.pools[8] == c2.pools[8] && c1.pools[2] == c2.pools[2];
  }

  lemma SectionDecodeFrame(c1: Catalog, c2: Catalog, row: SectionRow)
    requires AgreeBefore(c1, c2, Index(SectionFile)) && SectionRowOk(c1, row)
    ensures SectionRowOk(c2, row) && DecodeSection(c1, row) == DecodeSection(c2, row)
  {
    SectionInputs(c1, c2);
    assert forall k :: 0 <= k < |row.schedules| ==> DecodeSchedule(c1, row.schedules[k]) == DecodeSchedule(c2, row.schedules[k]);
  }

  lemma CourseDecodeFrame(c1: Catalog, c2: Catalog, row: CourseRow)
    requires AgreeBefore(c1, c2, Index(CourseFile)) && CourseRowOk(c1, row)
    ensures CourseRowOk(c2, row) && DecodeCourse(c1, row) == DecodeCourse(c2, row)
  {
    CourseInputs(c1, c2);
  }

  /** The asset order is a dependency order: whether a value fits, and what it decodes to,
      depends only on the pools before its asset. So a single pass in this order never reads
      a pool that has not been rebuilt yet, and no decoder reads the pool it fills. */
  lemma DecodeFrame(c1: Catalog, c2: Catalog, a: Asset, item: Item)
    requires AgreeBefore(c1, c2, Index(a)) && Fits(c1, a, item)
    ensures Fits(c2, a, item) && FromMinJson(c1, a, item) == FromMinJson(c2, a, item)
  {
    match a
    case DepartmentFile => assert c1.pools[0] == c2.pools[0];
    case EmployeeFile => assert c1.pools[0] == c2.pools[0] && c1.pools[3] == c2.pools[3];
    case SectionFile => SectionDecodeFrame(c1, c2, item.section);
    case CourseFile => CourseDecodeFrame(c1, c2, item.course);
    case SubjectFile => assert c1.pools[16] == c2.pools[16];
    case _ =>
  }

  // ---------------------------------------------------------------- rebuilding a pool

  /** A decoder function as the asset table holds it. */
  type Decoder = (Catalog, Asset, Item) --> Entry

  /** What the rebuild relies on about a decoder: its entries have the pool's type, and
      whether a value can be decoded, and into what, depends only on the earlier pools. */
  ghost predicate IsDecoder(dec: Decoder) {
    && (forall c, a, item :: dec.requires(c, a, item) ==> EntryFits(dec(c, a, item), a))
    && (forall c1, c2, a, item {:trigger AgreeBefore(c1, c2, Index(a)), dec.requires(c1, a, item)} ::
          AgreeBefore(c1, c2, Index(a)) && dec.requires(c1, a, item) ==>
          dec.requires(c2, a, item) && dec(c1, a, item) == dec(c2, a, item))
  }

  lemma FromMinJsonIsDecoder()
    ensures IsDecoder(FromMinJson)
  {
    forall c1, c2, a, item {:trigger AgreeBefore(c1, c2, Index(a)), Fits(c1, a, item)}
      | AgreeBefore(c1, c2, Index(a)) && Fits(c1, a, item)
      ensures Fits(c2, a, item) && FromMinJson(c1, a, item) == FromMinJson(c2, a, item)
    {
      DecodeFrame(c1, c2, a, item);
    }
  }

  /** A value a decoder accepts is accepted, and decoded alike, against any catalog with the
      same earlier pools. */
  lemma DecoderFrame(dec: Decoder, c1: Catalog, c2: Catalog, a: Asset, item: Item)
    requires IsDecoder(dec) && AgreeBefore(c1, c2, Index(a)) && dec.requires(c1, a, item)
    ensures dec.requires(c2, a, item) && dec(c1, a, item) == dec(c2, a, item)
  {
  }

  /** Changing only the pool of `a` keeps the pools before it. */
  lemma ExceptBefore(c1: Catalog, c2: Catalog, a: Asset)
    requires AgreeExcept(c1, c2, a)
    ensures AgreeBefore(c2, c1, Index(a))
  {
  }

  /** Replaces the pool of asset `a` and nothing else. */
  function SetPool(c: Catalog, a: Asset, p: Pool): (r: Catalog)
    ensures PoolAt(r, a) == p && AgreeExcept(r, c, a)
  {
    c.(pools := c.pools[Index(a) := p])
  }

  /** The pool with `e` appended, as a pool of `e`'s type. */
  function Append(p: Pool, e: Entry): Pool {
    match e
    case BuildingEntry(x) => Buildings(BuildingsOf(p) + [x])
    case TextEntry(x) => Texts(TextsOf(p) + [x])
    case DepartmentEntry(x) => Departments(DepartmentsOf(p) + [x])
    case EmployeeEntry(x) => Employees(EmployeesOf(p) + [x])
    case TagEntry(x) => Tags(TagsOf(p) + [x])
    case SectionEntry(x) => Sections(SectionsOf(p) + [x])
    case CourseEntry(x) => Courses(CoursesOf(p) + [x])
    case SubjectEntry(x) => Subjects(SubjectsOf(p) + [x])
  }

  /** Entry `k` of a pool, tagged with its type. */
  function EntryAt(p: Pool, k: nat): Entry
    requires k < PoolSize(p)
  {
    match p
    case Buildings(xs) => BuildingEntry(xs[k])
    case Texts(xs) => TextEntry(xs[k])
    case Departments(xs) => DepartmentEntry(xs[k])
    case Employees(xs) => EmployeeEntry(xs[k])
    case Tags(xs) => TagEntry(xs[k])
    case Sections(xs) => SectionEntry(xs[k])
    case Courses(xs) => CourseEntry(xs[k])
    case Subjects(xs) => SubjectEntry(xs[k])
  }

  /** Appending keeps the entries already there and puts the new one last. */
  lemma AppendEntries(p: Pool, e: Entry, a: Asset)
    requires HasKind(p, a) && EntryFits(e, a)
    ensures PoolSize(Append(p, e)) == PoolSize(p) + 1
    ensures forall k :: 0 <= k < PoolSize(p) ==> EntryAt(Append(p, e), k) == EntryAt(p, k)
    ensures EntryAt(Append(p, e), PoolSize(p)) == e
  {
  }

  /** Appending an entry of the pool's own type adds exactly one entry. */
  lemma AppendSize(p: Pool, e: Entry, a: Asset)
    requires HasKind(p, a) && EntryFits(e, a)
    ensures HasKind(Append(p, e), a) && PoolSize(Append(p, e)) == PoolSize(p) + 1
  {
  }

  /** `property.push(fromMinJson(this, value))` for the pool of asset `a`. */
  function Push(dec: Decoder, c: Catalog, a: Asset, item: Item): (r: Catalog)
    requires dec.requires(c, a, item)
    ensures AgreeExcept(r, c, a)
  {
    SetPool(c, a, Append(PoolAt(c, a), dec(c, a, item)))
  }

  /** Pushing keeps every other pool and adds one entry, of the pool's type. */
  lemma PushSize(dec: Decoder, c: Catalog, a: Asset, item: Item)
    requires IsDecoder(dec) && dec.requires(c, a, item) && HasKind(PoolAt(c, a), a)
    ensures HasKind(PoolAt(Push(dec, c, a, item), a), a)
    ensures PoolSize(PoolAt(Push(dec, c, a, item), a)) == PoolSize(PoolAt(c, a)) + 1
  {
    AppendSize(PoolAt(c, a), dec(c, a, item), a);
  }

  /** `property.length = 0` for the pool of asset `a`. */
  function Clear(c: Catalog, a: Asset): (r: Catalog)
    ensures AgreeExcept(r, c, a) && HasKind(PoolAt(r, a), a) && PoolSize(PoolAt(r, a)) == 0
  {
    SetPool(c, a, EmptyPool(a))
  }

  /** Every value can be decoded against catalog `c`. */
  ghost predicate AllFit(dec: Decoder, c: Catalog, a: Asset, items: seq<Item>) {
    forall k :: 0 <= k < |items| ==> dec.requires(c, a, items[k])
  }

  /** Values that decode keep decoding while the earlier pools stay the same. */
  lemma AllFitFrame(dec: Decoder, c1: Catalog, c2: Catalog, a: Asset, items: seq<Item>)
    requires IsDecoder(dec) && AgreeBefore(c1, c2, Index(a)) && AllFit(dec, c1, a, items)
    ensures AllFit(dec, c2, a, items)
  {
    forall k | 0 <= k < |items| ensures dec.requires(c2, a, items[k]) {
      DecoderFrame(dec, c1, c2, a, items[k]);
    }
  }

  /** The catalog after pushing `items` one by one into pool `a`. */
  function PushAll(dec: Decoder, c: Catalog, a: Asset, items: seq<Item>): (r: Catalog)
    requires IsDecoder(dec) && AllFit(dec, c, a, items)
    ensures AgreeExcept(r, c, a)
    decreases |items|
  {
    if items == [] then c
    else
      var prev := PushAll(dec, c, a, items[..|items| - 1]);
      ExceptBefore(prev, c, a);
      DecoderFrame(dec, c, prev, a, items[|items| - 1]);
      Push(dec, prev, a, items[|items| - 1])
  }

  /** After the pushes the pool holds one more entry per value, all of the pool's type. */
  lemma {:induction false} PushAllSize(dec: Decoder, c: Catalog, a: Asset, items: seq<Item>)
    requires IsDecoder(dec) && AllFit(dec, c, a, items) && HasKind(PoolAt(c, a), a)
    ensures HasKind(PoolAt(PushAll(dec, c, a, items), a), a)
    ensures PoolSize(PoolAt(PushAll(dec, c, a, items), a)) == PoolSize(PoolAt(c, a)) + |items|
    decreases |items|
  {
    if items != [] {
      var init := items[..|items| - 1];
      PushAllSize(dec, c, a, init);
      var prev := PushAll(dec, c, a, init);
      ExceptBefore(prev, c, a);
      DecoderFrame(dec, c, prev, a, items[|items| - 1]);
      PushSize(dec, prev, a, items[|items| - 1]);
    }
  }

  /** Pool `a` cleared and refilled from `items`; every other pool is kept. */
  function Rebuild(dec: Decoder, c: Catalog, a: Asset, items: seq<Item>): (r: Catalog)
    requires IsDecoder(dec) && AllFit(dec, c, a, items)
    ensures AgreeExcept(r, c, a)
  {
    ExceptBefore(Clear(c, a), c, a);
    AllFitFrame(dec, c, Clear(c, a), a, items);
    PushAll(dec, Clear(c, a), a, items)
  }

  /** The rebuilt pool holds one entry per value, of the pool's type. */
  lemma RebuildSize(dec: Decoder, c: Catalog, a: Asset, items: seq<Item>)
    requires IsDecoder(dec) && AllFit(dec, c, a, items)
    ensures HasKind(PoolAt(Rebuild(dec, c, a, items), a), a)
    ensures PoolSize(PoolAt(Rebuild(dec, c, a, items), a)) == |items|
  {
    ExceptBefore(Clear(c, a), c, a);
    AllFitFrame(dec, c, Clear(c, a), a, items);
    PushAllSize(dec, Clear(c, a), a, items);
  }

  /** Pool `p` is `p0` followed by `items` decoded against `c`, in order. */
  ghost predicate Extends(dec: Decoder, p0: Pool, p: Pool, c: Catalog, a: Asset, items: seq<Item>) {
    && AllFit(dec, c, a, items)
    && PoolSize(p) == PoolSize(p0) + |items|
    && (forall k :: 0 <= k < PoolSize(p0) ==> EntryAt(p, k) == EntryAt(p0, k))
    && (forall k :: 0 <= k < |items| ==> EntryAt(p, PoolSize(p0) + k) == dec(c, a, items[k]))
  }

  /** Pool `p` holds exactly `items` decoded against `c`, in order. */
  ghost predicate Holds(dec: Decoder, p: Pool, c: Catalog, a: Asset, items: seq<Item>) {
    && AllFit(dec, c, a, items)
    && PoolSize(p) == |items|
    && (forall k :: 0 <= k < |items| ==> EntryAt(p, k) == dec(c, a, items[k]))
  }

  /** Appending the decoding of one more value extends the pool by that value. */
  lemma ExtendsStep(dec: Decoder, p0: Pool, p: Pool, c: Catalog, a: Asset, init: seq<Item>, last: Item)
    requires Extends(dec, p0, p, c, a, init) && HasKind(p, a) && dec.requires(c, a, last)
    requires EntryFits(dec(c, a, last), a)
    ensures Extends(dec, p0, Append(p, dec(c, a, last)), c, a, init + [last])
  {
    var items := init + [last];
    var q := Append(p, dec(c, a, last));
    AppendEntries(p, dec(c, a, last), a);
    forall k | 0 <= k < |items| ensures dec.requires(c, a, items[k]) && EntryAt(q, PoolSize(p0) + k) == dec(c, a, items[k]) {
      if k < |init| { assert items[k] == init[k]; } else { assert items[k] == last; }
    }
  }

  /** The pushes keep the entries already in the pool, and entry `n + k` is value `k`
      decoded against the catalog the pushes start from. */
  lemma {:induction false} PushAllContents(dec: Decoder, c: Catalog, a: Asset, items: seq<Item>)
    requires IsDecoder(dec) && AllFit(dec, c, a, items) && HasKind(PoolAt(c, a), a)
    ensures Extends(dec, PoolAt(c, a), PoolAt(PushAll(dec, c, a, items), a), c, a, items)
    decreases |items|
  {
    if items == [] {
      assert PushAll(dec, c, a, items) == c;
    } else {
      var init, last := items[..|items| - 1], items[|items| - 1];
      assert items == init + [last];
      PushAllContents(dec, c, a, init);
      PushAllSize(dec, c, a, init);
      var prev := PushAll(dec, c, a, init);
      ExceptBefore(prev, c, a);
      DecoderFrame(dec, c, prev, a, last);
      ExtendsStep(dec, PoolAt(c, a), PoolAt(prev, a), c, a, init, last);
    }
  }

  /** The rebuilt pool holds, in order, the values decoded against the catalog before it:
      entry `k` is the decoding of value `k`. */
  lemma RebuildContents(dec: Decoder, c: Catalog, a: Asset, items: seq<Item>)
    requires IsDecoder(dec) && AllFit(dec, c, a, items)
    ensures Holds(dec, PoolAt(Rebuild(dec, c, a, items), a), c, a, items)
  {
    var cleared := Clear(c, a);
    ExceptBefore(cleared, c, a);
    AllFitFrame(dec, c, cleared, a, items);
    PushAllContents(dec, cleared, a, items);
    forall k | 0 <= k < |items| ensures dec(cleared, a, items[k]) == dec(c, a, items[k]) {
      DecoderFrame(dec, c, cleared, a, items[k]);
    }
  }

  /** One more push extends `PushAll` by one value, and that value decodes. */
  lemma PushAllStep(dec: Decoder, c: Catalog, a: Asset, items: seq<Item>, k: nat)
    requires IsDecoder(dec) && AllFit(dec, c, a, items) && k < |items|
    ensures AllFit(dec, c, a, items[..k]) && AllFit(dec, c, a, items[..k + 1])
    ensures dec.requires(PushAll(dec, c, a, items[..k]), a, items[k])
    ensures PushAll(dec, c, a, items[..k + 1]) == Push(dec, PushAll(dec, c, a, items[..k]), a, items[k])
  {
    assert items[..k + 1][..k] == items[..k];
    ExceptBefore(PushAll(dec, c, a, items[..k]), c, a);
    DecoderFrame(dec, c, PushAll(dec, c, a, items[..k]), a, items[k]);
  }

  /** The refilled pool depends only on the items, the pool it starts from and the pools before it. */
  lemma {:induction false} PushAllFrame(dec: Decoder, c1: Catalog, c2: Catalog, a: Asset, items: seq<Item>)
    requires IsDecoder(dec) && AgreeBefore(c1, c2, Index(a)) && PoolAt(c1, a) == PoolAt(c2, a)
    requires AllFit(dec, c1, a, items)
    ensures AllFit(dec, c2, a, items)
    ensures PoolAt(PushAll(dec, c1, a, items), a) == PoolAt(PushAll(dec, c2, a, items), a)
    decreases |items|
  {
    AllFitFrame(dec, c1, c2, a, items);
    if items != [] {
      var init := items[..|items| - 1];
      PushAllFrame(dec, c1, c2, a, init);
      var p1 := PushAll(dec, c1, a, init);
      var p2 := PushAll(dec, c2, a, init);
      ExceptBefore(p1, c1, a);
      ExceptBefore(p2, c2, a);
      assert AgreeBefore(p1, p2, Index(a));
      DecoderFrame(dec, c1, p1, a, items[|items| - 1]);
      DecoderFrame(dec, p1, p2, a, items[|items| - 1]);
    }
  }

  /** The rebuilt pool depends only on the items and the pools before it. */
  lemma RebuildFrame(dec: Decoder, c1: Catalog, c2: Catalog, a: Asset, items: seq<Item>)
    requires IsDecoder(dec) && AgreeBefore(c1, c2, Index(a)) && AllFit(dec, c1, a, items)
    ensures AllFit(dec, c2, a, items)
    ensures PoolAt(Rebuild(dec, c1, a, items), a) == PoolAt(Rebuild(dec, c2, a, items), a)
  {
    AllFitFrame(dec, c1, c2, a, items);
    ExceptBefore(Clear(c1, a), c1, a);
    ExceptBefore(Clear(c2, a), c2, a);
    AllFitFrame(dec, c1, Clear(c1, a), a, items);
    assert AgreeBefore(Clear(c1, a), Clear(c2, a), Index(a));
    PushAllFrame(dec, Clear(c1, a), Clear(c2, a), a, items);
  }

  // ---------------------------------------------------------------- expanding the cache

  /** The values cached for asset `a`, or none (`this.assetCache.get(path) ?? []`). */
  function Cached(cache: map<string, seq<Item>>, a: Asset): seq<Item> {
    if Path(a) in cache then cache[Path(a)] else []
  }

  /** After the first `i` assets of the order have been rebuilt from the cache, every value
      of the next asset decodes (all earlier stages' values did, too). */
  ghost predicate StageFits(dec: Decoder, c: Catalog, cache: map<string, seq<Item>>, i: nat)
    requires i <= AssetCount
    decreases i, 0
  {
    IsDecoder(dec)
    && (i == 0 || (StageFits(dec, c, cache, i - 1)
                   && AllFit(dec, Stage(dec, c, cache, i - 1), AssetOrder[i - 1], Cached(cache, AssetOrder[i - 1]))))
  }

  /** The catalog after the first `i` passes of `expand`'s outer loop. */
  function Stage(dec: Decoder, c: Catalog, cache: map<string, seq<Item>>, i: nat): Catalog
    requires i <= AssetCount && StageFits(dec, c, cache, i)
    decreases i, 1
  {
    if i == 0 then c
    else Rebuild(dec, Stage(dec, c, cache, i - 1), AssetOrder[i - 1], Cached(cache, AssetOrder[i - 1]))
  }

  /** The cache can be expanded: every value decodes when its turn comes. */
  ghost predicate CacheFits(dec: Decoder, c: Catalog, cache: map<string, seq<Item>>) {
    forall i :: 0 <= i <= AssetCount ==> StageFits(dec, c, cache, i)
  }

  /** The old contents of the pools are discarded: two catalogs staged from the same cache
      agree on every pool rebuilt so far, and the values decode for one iff they do for the other. */
  lemma {:induction false} StageFrame(dec: Decoder, c1: Catalog, c2: Catalog, cache: map<string, seq<Item>>, i: nat)
    requires i <= AssetCount && StageFits(dec, c1, cache, i)
    ensures StageFits(dec, c2, cache, i)
    ensures AgreeBefore(Stage(dec, c1, cache, i), Stage(dec, c2, cache, i), i)
  {
    if i > 0 {
      StageFrame(dec, c1, c2, cache, i - 1);
      StageFitsStep(dec, c1, c2, cache, i - 1);
      StageAgreeStep(dec, c1, c2, cache, i - 1);
    }
  }

  /** The values of the next asset decode against the second catalog's stage as well. */
  lemma StageFitsStep(dec: Decoder, c1: Catalog, c2: Catalog, cache: map<string, seq<Item>>, j: nat)
    requires j < AssetCount && StageFits(dec, c1, cache, j + 1) && StageFits(dec, c2, cache, j)
    requires AgreeBefore(Stage(dec, c1, cache, j), Stage(dec, c2, cache, j), j)
    ensures StageFits(dec, c2, cache, j + 1)
  {
    var a := AssetOrder[j];
    AssetOrderIndex(j);
    AllFitFrame(dec, Stage(dec, c1, cache, j), Stage(dec, c2, cache, j), a, Cached(cache, a));
  }

  /** The next pass keeps the two stages in agreement, now on one more pool. */
  lemma StageAgreeStep(dec: Decoder, c1: Catalog, c2: Catalog, cache: map<string, seq<Item>>, j: nat)
    requires j < AssetCount && StageFits(dec, c1, cache, j) && StageFits(dec, c2, cache, j)
    requires StageFits(dec, c1, cache, j + 1) && StageFits(dec, c2, cache, j + 1)
    requires AgreeBefore(Stage(dec, c1, cache, j), Stage(dec, c2, cache, j), j)
    ensures AgreeBefore(Stage(dec, c1, cache, j + 1), Stage(dec, c2, cache, j + 1), j + 1)
  {
    var a := AssetOrder[j];
    AssetOrderIndex(j);
    var s1, s2 := Stage(dec, c1, cache, j), Stage(dec, c2, cache, j);
    RebuildFrame(dec, s1, s2, a, Cached(cache, a));
    ExceptBefore(Rebuild(dec, s1, a, Cached(cache, a)), s1, a);
    ExceptBefore(Rebuild(dec, s2, a, Cached(cache, a)), s2, a);
  }

  /** The catalog a full expansion yields does not depend on the catalog it started from. */
  lemma ExpandedIndependent(dec: Decoder, c1: Catalog, c2: Catalog, cache: map<string, seq<Item>>)
    requires CacheFits(dec, c1, cache)
    ensures CacheFits(dec, c2, cache) && Stage(dec, c1, cache, AssetCount) == Stage(dec, c2, cache, AssetCount)
  {
    forall i | 0 <= i <= AssetCount ensures StageFits(dec, c2, cache, i) {
      StageFrame(dec, c1, c2, cache, i);
    }
    StageFrame(dec, c1, c2, cache, AssetCount);
    AgreeAll(Stage(dec, c1, cache, AssetCount), Stage(dec, c2, cache, AssetCount));
  }

  /** The pass after stage `i` rebuilds the pool of the next asset, `a`, from values that decode. */
  lemma StageStep(dec: Decoder, c: Catalog, cache: map<string, seq<Item>>, i: nat, a: Asset)
    requires i < AssetCount && a == AssetOrder[i] && StageFits(dec, c, cache, i + 1)
    ensures IsDecoder(dec) && StageFits(dec, c, cache, i)
    ensures AllFit(dec, Stage(dec, c, cache, i), a, Cached(cache, a))
    ensures Stage(dec, c, cache, i + 1) == Rebuild(dec, Stage(dec, c, cache, i), a, Cached(cache, a))
  {
  }

  /** A pool rebuilt at some stage is left alone by every later stage. */
  lemma {:induction false} StageKeeps(dec: Decoder, c: Catalog, cache: map<string, seq<Item>>, a: Asset, i: nat)
    requires Index(a) < i <= AssetCount && StageFits(dec, c, cache, i) && StageFits(dec, c, cache, Index(a) + 1)
    ensures PoolAt(Stage(dec, c, cache, i), a) == PoolAt(Stage(dec, c, cache, Index(a) + 1), a)
  {
    if i > Index(a) + 1 {
      StageKeeps(dec, c, cache, a, i - 1);
      AssetOrderIndex(i - 1);
    }
  }

  /** After a full expansion every pool has the type its decoder produces and holds exactly
      one entry per cached value. */
  lemma ExpandedSizes(dec: Decoder, c: Catalog, cache: map<string, seq<Item>>, a: Asset)
    requires CacheFits(dec, c, cache)
    ensures HasKind(PoolAt(Stage(dec, c, cache, AssetCount), a), a)
    ensures PoolSize(PoolAt(Stage(dec, c, cache, AssetCount), a)) == |Cached(cache, a)|
    ensures StageFits(dec, c, cache, Index(a))
    ensures Holds(dec, PoolAt(Stage(dec, c, cache, AssetCount), a), Stage(dec, c, cache, Index(a)), a, Cached(cache, a))
  {
    StageKeeps(dec, c, cache, a, AssetCount);
    IndexInOrder(a);
    StageStep(dec, c, cache, Index(a), a);
    RebuildSize(dec, Stage(dec, c, cache, Index(a)), a, Cached(cache, a));
    RebuildContents(dec, Stage(dec, c, cache, Index(a)), a, Cached(cache, a));
  }

  // ---------------------------------------------------------------- linking

  /** `pool[id]` as a link: a position in range, otherwise `undefined`. */
  function LinkIndex(id: int, n: nat): (r: Option<nat>)
    ensures r.Some? <==> 0 <= id < n
    ensures r.Some? ==> r.value == id
  {
    if 0 <= id < n then Some(id) else None
  }

  /** `section.course = this.courses[section.courseId]` for every section. */
  function LinkSections(sections: seq<Section>, courseCount: nat): (r: seq<Section>)
    ensures |r| == |sections|
  {
    seq(|sections|, k requires 0 <= k < |sections| => sections[k].(course := LinkIndex(sections[k].courseId, courseCount)))
  }

  /** `course.subject = this.subjects[course.subjectId]` for every course. */
  function LinkCourses(courses: seq<Course>, subjectCount: nat): (r: seq<Course>)
    ensures |r| == |courses|
  {
    seq(|courses|, k requires 0 <= k < |courses| => courses[k].(subject := LinkIndex(courses[k].subjectId, subjectCount)))
  }

  /** Both link loops of `expand`. */
  function Link(c: Catalog): (r: Catalog)
    ensures |r.sections()| == |c.sections()| && |r.courses()| == |c.courses()|
  {
    var sections := LinkSections(c.sections(), |c.courses()|);
    var courses := LinkCourses(c.courses(), |c.subjects()|);
    SetPool(SetPool(c, SectionFile, Sections(sections)), CourseFile, Courses(courses))
  }

  /** Every section points at the course its `courseId` names and every course at the
      subject its `subjectId` names (or at nothing when the id is out of range). */
  ghost predicate Linked(c: Catalog) {
    && (forall k :: 0 <= k < |c.sections()| ==>
          c.sections()[k].course == LinkIndex(c.sections()[k].courseId, |c.courses()|))
    && (forall k :: 0 <= k < |c.courses()| ==>
          c.courses()[k].subject == LinkIndex(c.courses()[k].subjectId, |c.subjects()|))
  }

  /** The linked catalog's sections and courses are the linked sequences; the subjects stay. */
  lemma LinkAt(c: Catalog)
    ensures Link(c).sections() == LinkSections(c.sections(), |c.courses()|)
    ensures Link(c).courses() == LinkCourses(c.courses(), |c.subjects()|)
    ensures Link(c).subjects() == c.subjects()
  {
    assert Link(c).pools[15] == Sections(LinkSections(c.sections(), |c.courses()|));
    assert Link(c).pools[16] == Courses(LinkCourses(c.courses(), |c.subjects()|));
  }

  /** Linking sets only the link fields, and afterwards the catalog is linked. */
  lemma LinkLinks(c: Catalog)
    ensures Linked(Link(c))
    ensures forall k :: 0 <= k < |c.sections()| ==>
              Link(c).sections()[k] == c.sections()[k].(course := Link(c).sections()[k].course)
    ensures forall k :: 0 <= k < |c.courses()| ==>
              Link(c).courses()[k] == c.courses()[k].(subject := Link(c).courses()[k].subject)
  {
    LinkAt(c);
  }

  /** Linking leaves every pool other than the sections and the courses alone. */
  lemma LinkKeeps(c: Catalog, a: Asset)
    requires a != SectionFile && a != CourseFile
    ensures PoolAt(Link(c), a) == PoolAt(c, a)
  {
    IndexInjective(a, SectionFile);
    IndexInjective(a, CourseFile);
  }

  /** Rerunning the link loops changes nothing. */
  lemma {:induction false} LinkIdempotent(c: Catalog)
    ensures Link(Link(c)) == Link(c)
  {
    var l := Link(c);
    var ll := Link(l);
    assert ll.sections() == l.sections();
    assert ll.courses() == l.courses();
    assert ll.pools == l.pools;
  }

  /** The catalog `expand` produces from a cache that fits. */
  function Expanded(cache: map<string, seq<Item>>): Catalog
    requires CacheFits(FromMinJson, EmptyCatalog, cache)
  {
    Link(Stage(FromMinJson, EmptyCatalog, cache, AssetCount))
  }

  /** Expanding from whatever the pools held before gives the same, linked, catalog. */
  lemma ExpandedFrom(c: Catalog, cache: map<string, seq<Item>>)
    requires CacheFits(FromMinJson, c, cache)
    ensures CacheFits(FromMinJson, EmptyCatalog, cache)
    ensures Link(Stage(FromMinJson, c, cache, AssetCount)) == Expanded(cache)
    ensures Linked(Expanded(cache))
  {
    ExpandedIndependent(FromMinJson, c, EmptyCatalog, cache);
    LinkLinks(Stage(FromMinJson, EmptyCatalog, cache, AssetCount));
  }

  /** The course of `s` and that course's subject exist, so `section.course.subject.code`
      can be read. */
  predicate SectionLinked(s: Section, courses: seq<Course>, subjects: seq<Subject>) {
    && s.course.Some? && s.course.value < |courses|
    && courses[s.course.value].subject.Some? && courses[s.course.value].subject.value < |subjects|
  }

  // ---------------------------------------------------------------- Subject.copy

  /** `Subject.copy(campus, semester)`: the subject's courses offered at that campus in that semester. */
  function CopySubject(s: Subject, courses: seq<Course>, campus: string, semester: string): (r: Subject)
    requires forall k :: 0 <= k < |s.courses| ==> s.courses[k] < |courses|
    ensures r.code == s.code && r.name == s.name
    ensures forall k :: 0 <= k < |r.courses| ==>
              r.courses[k] < |courses| && courses[r.courses[k]].campus == campus && courses[r.courses[k]].semester == semester
    ensures forall k :: (0 <= k < |s.courses| && courses[s.courses[k]].campus == campus
              && courses[s.courses[k]].semester == semester) ==> s.courses[k] in r.courses
    ensures IsSubsequence(r.courses, s.courses)
  {
    var offered := (i: nat) => i < |courses| && courses[i].campus == campus && courses[i].semester == semester;
    FilterSubsequence(s.courses, offered);
    Subject(s.code, s.name, Filter(s.courses, offered))
  }
}
