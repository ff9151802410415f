/** `CourseDataService`: the metadata timestamp rule, the chain of asset downloads
    (`load` -> `save` -> `load` ... -> `expand`), the error path, and `expand`, which
    rebuilds every pool in place and then links sections to courses and courses to
    subjects. A download's outcome is a parameter: `save` receives the parsed file,
    `error` is called instead when the download fails. Message-bus casts are appended
    to `events`. */
module CourseData {
  import opened Catalog

  /** A cast on the message bus. */
  datatype Event =
    | Progress(path: string, size: int, index: nat, total: nat)
    | UpdateAvailable
    | ReloadComplete
    | ReloadError

  datatype MetaData = MetaData(fileSizes: map<string, int>, timestamp: int, years: seq<int>)

  /** A parsed asset file: a plain array of strings, or a minimised file with its keys and values. */
  datatype Download = PlainArray(values: seq<Item>) | Minimized(keys: seq<string>, values: seq<Item>)

  class CourseDataService {
    var fileSizes: map<string, int>
    var timestamp: int
    var semesterYears: seq<int>
    var catalog: Catalog
    var cache: map<string, seq<Item>>
    var events: seq<Event>

    ghost predicate Valid()
      reads this
    {
      |semesterYears| == 3
    }

    constructor()
      ensures Valid()
      ensures fileSizes == map[] && timestamp == 0 && semesterYears == [0, 0, 0]
      ensures catalog == EmptyCatalog && cache == map[] && events == []
    {
      fileSizes := map[];
      timestamp := 0;
      semesterYears := [0, 0, 0];
      catalog := EmptyCatalog;
      cache := map[];
      events := [];
    }

    /** `loadMetaData`: a forced reload forgets the stored timestamp. */
    method LoadMetaData(forceReload: bool)
      modifies this
      ensures timestamp == (if forceReload then -1 else old(timestamp))
      ensures fileSizes == old(fileSizes) && semesterYears == old(semesterYears)
      ensures catalog == old(catalog) && cache == old(cache) && events == old(events)
    {
      if forceReload {
        timestamp := -1;
      }
    }

    /** `saveMetaData`: stores the metadata and signals an update iff the timestamp changed. */
    method SaveMetaData(data: MetaData)
      requires |data.years| == 3
      modifies this
      ensures Valid()
      ensures fileSizes == data.fileSizes && timestamp == data.timestamp && semesterYears == data.years
      ensures events == old(events) + (if old(timestamp) != data.timestamp then [UpdateAvailable] else [])
      ensures catalog == old(catalog) && cache == old(cache)
    {
      var updateAvailable := timestamp != data.timestamp;
      fileSizes := data.fileSizes;
      timestamp := data.timestamp;
      semesterYears := data.years;
      if updateAvailable {
        events := events + [UpdateAvailable];
      }
    }

    /** `reload`: forgets the timestamp (so the next metadata always signals an update, as real
        timestamps are never negative) and requests the first asset. */
    method Reload()
      modifies this
      ensures timestamp == -1
      ensures events == old(events) + [ProgressOf(old(fileSizes), 0)]
      ensures fileSizes == old(fileSizes) && semesterYears == old(semesterYears)
      ensures catalog == old(catalog) && cache == old(cache)
    {
      LoadMetaData(true);
      Load(0);
    }

    /** The progress report for the asset at `index`. */
    static function ProgressOf(fileSizes: map<string, int>, index: nat): (e: Event)
      requires index < AssetCount
      ensures e.Progress? && e.index == index && e.total == |fileSizes|
      ensures e.path == Path(AssetOrder[index])
      ensures e.size == (if e.path in fileSizes then fileSizes[e.path] else 0)
    {
      var path := Path(AssetOrder[index]);
      Progress(path, if path in fileSizes then fileSizes[path] else 0, index, |fileSizes|)
    }

    /** `load(index)`: past the last asset it expands the cache; otherwise it requests the
        asset at `index` (its outcome arrives through `Save` or `Error`) and reports progress. */
    method Load(index: nat)
      requires index <= AssetCount
      requires index == AssetCount ==> CacheFits(FromMinJson, catalog, cache)
      modifies this
      ensures index < AssetCount ==>
                catalog == old(catalog) && cache == old(cache) && events == old(events) + [ProgressOf(fileSizes, index)]
      ensures index == AssetCount ==>
                CacheFits(FromMinJson, EmptyCatalog, old(cache)) && catalog == Expanded(old(cache))
                && cache == map[] && events == old(events) + [ReloadComplete]
      ensures fileSizes == old(fileSizes) && timestamp == old(timestamp) && semesterYears == old(semesterYears)
    {
      if index == |AssetOrder| {
        Expand();
        return;
      }
      events := events + [ProgressOf(fileSizes, index)];
    }

    /** `save(index, data)`: caches the values of the file under its path and goes on with the
        next asset. */
    method Save(index: nat, data: Download)
      requires index < AssetCount
      requires index + 1 == AssetCount ==> CacheFits(FromMinJson, catalog, cache[Path(AssetOrder[index]) := data.values])
      modifies this
      ensures index + 1 < AssetCount ==>
                catalog == old(catalog) && cache == old(cache)[Path(AssetOrder[index]) := data.values]
                && events == old(events) + [ProgressOf(fileSizes, index + 1)]
      ensures index + 1 == AssetCount ==>
                CacheFits(FromMinJson, EmptyCatalog, old(cache)[Path(AssetOrder[index]) := data.values])
                && catalog == Expanded(old(cache)[Path(AssetOrder[index]) := data.values])
                && cache == map[] && events == old(events) + [ReloadComplete]
      ensures fileSizes == old(fileSizes) && timestamp == old(timestamp) && semesterYears == old(semesterYears)
    {
      var path := Path(AssetOrder[index]);
      cache := cache[path := data.values];
      Load(index + 1);
    }

    /** `error`: a failed download empties the cache and leaves the catalog as it was. */
    method Error()
      modifies this
      ensures cache == map[] && events == old(events) + [ReloadError]
      ensures catalog == old(catalog)
      ensures fileSizes == old(fileSizes) && timestamp == old(timestamp) && semesterYears == old(semesterYears)
    {
      cache := map[];
      events := events + [ReloadError];
    }

    /** `expand`: every pool, in the asset order, is emptied and refilled from the cache; then
        sections and courses are linked, and the cache is emptied. The catalog that results
        depends on the cache alone. */
    method Expand()
      requires CacheFits(FromMinJson, catalog, cache)
      modifies this
      ensures CacheFits(FromMinJson, EmptyCatalog, old(cache)) && catalog == Expanded(old(cache))
      ensures Linked(catalog)
      ensures cache == map[] && events == old(events) + [ReloadComplete]
      ensures fileSizes == old(fileSizes) && timestamp == old(timestamp) && semesterYears == old(semesterYears)
    {
      var pools := ExpandPools(catalog, cache);
      Complete(pools);
    }

    /** The end of `expand`: the new pools are in place, the cache is cleared and completion
        is reported. */
    method Complete(pools: Catalog)
      modifies this
      ensures catalog == pools && cache == map[] && events == old(events) + [ReloadComplete]
      ensures fileSizes == old(fileSizes) && timestamp == old(timestamp) && semesterYears == old(semesterYears)
    {
      catalog, cache, events := pools, map[], events + [ReloadComplete];
    }

    /** The pools `expand` leaves behind: every pool rebuilt, then the link loops. */
    static method ExpandPools(c: Catalog, cache: map<string, seq<Item>>) returns (r: Catalog)
      requires CacheFits(FromMinJson, c, cache)
      ensures CacheFits(FromMinJson, EmptyCatalog, cache) && r == Expanded(cache) && Linked(r)
    {
      r := RebuildAll(FromMinJson, c, cache);
      var sections := LinkSectionPool(r.sections(), |r.courses()|);
      var courses := LinkCoursePool(r.courses(), |r.subjects()|);
      r := SetPool(SetPool(r, SectionFile, Sections(sections)), CourseFile, Courses(courses));
      ExpandedFrom(c, cache);
    }

    /** `expand`'s outer loop: the pools, in the asset order, each rebuilt from the cache with
        the asset's decoder. */
    static method RebuildAll(dec: Decoder, c: Catalog, cache: map<string, seq<Item>>) returns (r: Catalog)
      requires CacheFits(dec, c, cache)
      ensures r == Stage(dec, c, cache, AssetCount)
    {
      r := c;
      var i: nat := 0;
      while i < AssetCount
        invariant i <= AssetCount && StageFits(dec, c, cache, i) && r == Stage(dec, c, cache, i)
      {
        r := RebuildNext(dec, c, cache, i, r);
        i := i + 1;
      }
    }

    /** The pass for the asset at position `i` of the order. */
    static method RebuildNext(dec: Decoder, c: Catalog, cache: map<string, seq<Item>>, i: nat, prev: Catalog)
      returns (r: Catalog)
      requires i < AssetCount && CacheFits(dec, c, cache) && StageFits(dec, c, cache, i)
      requires prev == Stage(dec, c, cache, i)
      ensures StageFits(dec, c, cache, i + 1) && r == Stage(dec, c, cache, i + 1)
    {
      assert |AssetOrder| == AssetCount;
      var asset := AssetOrder[i];
      StageStep(dec, c, cache, i, asset);
      r := RebuildPool(dec, prev, asset, Cached(cache, asset));
    }

    /** One pass of `expand`'s outer loop: `property.length = 0`, then one push per cached value. */
    static method RebuildPool(dec: Decoder, c: Catalog, asset: Asset, values: seq<Item>) returns (r: Catalog)
      requires IsDecoder(dec) && AllFit(dec, c, asset, values)
      ensures r == Rebuild(dec, c, asset, values)
    {
      r := Clear(c, asset);
      ghost var cleared := r;
      ExceptBefore(cleared, c, asset);
      AllFitFrame(dec, c, cleared, asset, values);
      var k := 0;
      while k < |values|
        invariant 0 <= k <= |values|
        invariant r == PushAll(dec, cleared, asset, values[..k])
      {
        PushAllStep(dec, cleared, asset, values, k);
        r := Push(dec, r, asset, values[k]);
        k := k + 1;
      }
      assert values[..k] == values;
    }

    /** The first link loop: `section.course = this.courses[section.courseId]`. */
    static method LinkSectionPool(sections: seq<Section>, courseCount: nat) returns (r: seq<Section>)
      ensures r == LinkSections(sections, courseCount)
    {
      r := sections;
      var j := 0;
      while j < |r|
        invariant 0 <= j <= |r| == |sections|
        invariant forall k :: 0 <= k < j ==> r[k] == sections[k].(course := LinkIndex(sections[k].courseId, courseCount))
        invariant forall k :: j <= k < |r| ==> r[k] == sections[k]
      {
        r := r[j := r[j].(course := LinkIndex(r[j].courseId, courseCount))];
        j := j + 1;
      }
    }

    /** The second link loop: `course.subject = this.subjects[course.subjectId]`. */
    static method LinkCoursePool(courses: seq<Course>, subjectCount: nat) returns (r: seq<Course>)
      ensures r == LinkCourses(courses, subjectCount)
    {
      r := courses;
      var j := 0;
      while j < |r|
        invariant 0 <= j <= |r| == |courses|
        invariant forall k :: 0 <= k < j ==> r[k] == courses[k].(subject := LinkIndex(courses[k].subjectId, subjectCount))
        invariant forall k :: j <= k < |r| ==> r[k] == courses[k]
      {
        r := r[j := r[j].(subject := LinkIndex(r[j].subjectId, subjectCount))];
        j := j + 1;
      }
    }
  }
}
