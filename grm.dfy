/**
 * One GRM run: resolve the flight date, pick the collection of its water year (creating
 * it when the output folder has none), run the five checks on an existing one, then write
 * the time value and the masked depth grid. The output folder is a map from water year to
 * collection; Ingest, AddSpec and RunSpec say what a run does to it, and the Grm class
 * does it in place.
 */
module Grm {
  import opened Outcomes
  import opened Calendar
  import opened WaterYear
  import opened Basin
  import opened FilenameDate
  import opened Collection

  /** The `date` a run is given: a --dates string, or what parse_fname_date found in the file name (a date, or None). */
  datatype DateArg = Given(s: string) | Parsed(d: CalendarDate) | Unparsed

  /**
   * An input image as the external tools see it: whether gdalinfo and gdalwarp succeed on
   * it, and the depth grid mask_nc makes of the warped file (None when reading or masking fails).
   */
  datatype Image = Image(path: string, warped: bool, masked: Option<Slice>)

  /** The collection files of the output folder, by water year (lidar_depths_wy<year>.nc). */
  type Store = map<int, CollectionData>

  /**
   * The flight date add_to_collection works with: parse_fname_date when no date was passed,
   * pd.to_datetime of a --dates string, a parsed date as it is; None has no `.year`.
   */
  function ResolveDate(date: Option<DateArg>, fname: string, toDatetime: string -> Option<CalendarDate>): Result<CalendarDate> {
    match date
    case None =>
      var parsed := FirstParsed(NameSegments(fname), toDatetime);
      if parsed.None? then Err(DateParseFailed) else Ok(parsed.value)
    case Some(Given(s)) =>
      var parsed := toDatetime(s);
      if parsed.None? then Err(DateParseFailed) else Ok(parsed.value)
    case Some(Parsed(d)) => Ok(d)
    case Some(Unparsed) => Err(NoDate)
  }

  /**
   * Writing one flight into collection c: get_time_index finds the flight's time value or
   * appends it, then the masked grid is stored at that index. When reading or masking the
   * warped file fails the time value is already written and no depth is.
   */
  function WriteFlight(c: CollectionData, d: CalendarDate, masked: Option<Slice>): (Outcome, CollectionData) {
    var t := TimeValue(c.epochYear, d);
    var index := FindTime(c.timeAxis, t);
    var timed := c.(timeAxis := SetTime(c.timeAxis, index, t));
    if masked.None? then (Fail(MaskFailed), timed)
    else (Pass, timed.(depth := timed.depth[index := masked.value]))
  }

  /** add_to_collection once the flight date is known, with the start year set in both branches of the water-year code. */
  function Ingest(store: Store, topo: Topo, basin: string, d: CalendarDate, masked: Option<Slice>): (Outcome, Store) {
    var wy := WaterYearOf(d);
    if wy in store && Validate(store[wy], topo, basin, d, wy).Fail? then
      (Validate(store[wy], topo, basin, d, wy), store)
    else
      var c := if wy in store then store[wy] else NewCollection(topo, basin, wy, StartYearOf(d));
      var written := WriteFlight(c, d, masked);
      (written.0, store[wy := written.1])
  }

  /** The two ways Ingest ends: a failed check changes nothing, otherwise the target file is written. */
  lemma IngestCases(store: Store, topo: Topo, basin: string, d: CalendarDate, masked: Option<Slice>)
    ensures var wy := WaterYearOf(d);
      var c := Target(store, topo, basin, d);
      && (wy in store && Validate(store[wy], topo, basin, d, wy).Fail? ==>
            Ingest(store, topo, basin, d, masked) == (Validate(store[wy], topo, basin, d, wy), store))
      && (!(wy in store && Validate(store[wy], topo, basin, d, wy).Fail?) ==>
            Ingest(store, topo, basin, d, masked) == (WriteFlight(c, d, masked).0, store[wy := WriteFlight(c, d, masked).1]))
  {
  }

  /** add_to_collection (with the corrected start year): resolve the date, then file the flight. */
  function AddSpec(store: Store, topo: Topo, basin: string, date: Option<DateArg>, image: Image,
                   toDatetime: string -> Option<CalendarDate>): (Outcome, Store) {
    match ResolveDate(date, image.path, toDatetime)
    case Err(e) => (Fail(e), store)
    case Ok(d) => Ingest(store, topo, basin, d, image.masked)
  }

  /** run_grm: the image is read and warped first; only then is it added to the collection. */
  function RunSpec(store: Store, topo: Topo, basin: string, date: Option<DateArg>, image: Image,
                   toDatetime: string -> Option<CalendarDate>): (Outcome, Store) {
    if !image.warped then (Fail(WarpFailed), store)
    else AddSpec(store, topo, basin, date, image, toDatetime)
  }

  /**
   * The layout of one collection file of water year y: it holds flights of that water year only,
   * its time axis counts from October 1 of the year before, no date appears twice, and depth is
   * stored only at indices the time axis has.
   */
  predicate FileInvariant(y: int, c: CollectionData) {
    c.epochYear == y - 1 && WellFormed(c) && DatesInWaterYear(y, c.epochYear, c.timeAxis)
  }

  predicate DatesInWaterYear(y: int, epochYear: int, axis: seq<int>) {
    forall i :: 0 <= i < |axis| ==> WaterYearOf(DateOfHours(epochYear, axis[i])) == y
  }

  /** The layout of the whole output folder. */
  predicate StoreInvariant(store: Store) {
    forall y :: y in store ==> FileInvariant(y, store[y])
  }

  /** run_grm, whatever its outcome, leaves every collection file in its layout. */
  lemma RunSpecPreservesInvariant(store: Store, topo: Topo, basin: string, date: Option<DateArg>, image: Image,
                                  toDatetime: string -> Option<CalendarDate>)
    requires StoreInvariant(store)
    ensures StoreInvariant(RunSpec(store, topo, basin, date, image, toDatetime).1)
  {
    var resolved := ResolveDate(date, image.path, toDatetime);
    if image.warped && resolved.Ok? {
      IngestPreservesInvariant(store, topo, basin, resolved.value, image.masked);
    }
  }

  /** Writing a flight of the file's water year whose date the file does not hold appends it at the end of the axis. */
  lemma WriteFlightAppends(c: CollectionData, d: CalendarDate, masked: Option<Slice>)
    requires !DateRecorded(c, d)
    ensures var t := TimeValue(c.epochYear, d);
      WriteFlight(c, d, masked) ==
        if masked.None? then (Fail(MaskFailed), c.(timeAxis := c.timeAxis + [t]))
        else (Pass, c.(timeAxis := c.timeAxis + [t], depth := c.depth[|c.timeAxis| := masked.value]))
  {
    UnrecordedDateAppends(c, d);
  }

  /** Such a write keeps the file's layout. */
  lemma WriteKeepsFileInvariant(y: int, c: CollectionData, d: CalendarDate, masked: Option<Slice>)
    requires FileInvariant(y, c) && WaterYearOf(d) == y && !DateRecorded(c, d)
    ensures FileInvariant(y, WriteFlight(c, d, masked).1)
  {
    UnrecordedDateAppends(c, d);
    var n := WriteFlight(c, d, masked).1;
    assert n.timeAxis == c.timeAxis + [TimeValue(c.epochYear, d)];
    AppendKeepsDates(c, d);
    assert n.depth.Keys <= c.depth.Keys + {|c.timeAxis|};
  }

  /** Appending the time value of an unrecorded date of the file's water year keeps the dates distinct and in that water year. */
  lemma AppendKeepsDates(c: CollectionData, d: CalendarDate)
    requires FileInvariant(WaterYearOf(d), c) && !DateRecorded(c, d)
    ensures var n := c.timeAxis + [TimeValue(c.epochYear, d)];
      DistinctDates(c.epochYear, n) && DatesInWaterYear(WaterYearOf(d), c.epochYear, n)
  {
    var n := c.timeAxis + [TimeValue(c.epochYear, d)];
    TimeValueRoundTrip(c.epochYear, d);
    assert DateOfHours(c.epochYear, n[|c.timeAxis|]) == d;
    forall i | 0 <= i < |c.timeAxis|
      ensures n[i] == c.timeAxis[i]
      ensures DateOfHours(c.epochYear, n[i]) != d
    {
      assert !DateRecorded(c, d);
    }
  }

  /** The collection a flight of date d is written to: the existing one of its water year, or a new one. */
  function Target(store: Store, topo: Topo, basin: string, d: CalendarDate): CollectionData {
    var wy := WaterYearOf(d);
    if wy in store then store[wy] else NewCollection(topo, basin, wy, StartYearOf(d))
  }

  /**
   * What one ingestion does. It passes exactly when the mask succeeds and either no file of the
   * water year exists or all five checks pass; then the flight's time value is appended to that
   * file's axis and its grid stored at the new index. A failed mask leaves only the appended
   * time. A failed check leaves every file as it was. Files of other water years never change.
   */
  lemma IngestAppendsOneFlight(store: Store, topo: Topo, basin: string, d: CalendarDate, masked: Option<Slice>)
    ensures var wy := WaterYearOf(d);
      Ingest(store, topo, basin, d, masked).0.Pass? <==>
        masked.Some? && (wy !in store || Validate(store[wy], topo, basin, d, wy).Pass?)
    ensures var (o, after) := Ingest(store, topo, basin, d, masked);
      var c := Target(store, topo, basin, d);
      var t := TimeValue(WaterYearOf(d) - 1, d);
      && (o.Pass? ==> after == store[WaterYearOf(d) := c.(timeAxis := c.timeAxis + [t], depth := c.depth[|c.timeAxis| := masked.value])])
      && (o == Fail(MaskFailed) ==> after == store[WaterYearOf(d) := c.(timeAxis := c.timeAxis + [t])])
      && (o.Fail? && o.error != MaskFailed ==> after == store)
  {
    var wy := WaterYearOf(d);
    var c := Target(store, topo, basin, d);
    if wy in store && Validate(store[wy], topo, basin, d, wy).Fail? {
      IngestRefused(store, topo, basin, d, masked);
    } else {
      IngestWritesTarget(store, topo, basin, d, masked);
    }
  }

  lemma IngestRefused(store: Store, topo: Topo, basin: string, d: CalendarDate, masked: Option<Slice>)
    requires WaterYearOf(d) in store && Validate(store[WaterYearOf(d)], topo, basin, d, WaterYearOf(d)).Fail?
    ensures Ingest(store, topo, basin, d, masked).1 == store
    ensures Ingest(store, topo, basin, d, masked).0.Fail? && Ingest(store, topo, basin, d, masked).0.error != MaskFailed
  {
    IngestCases(store, topo, basin, d, masked);
  }

  lemma IngestWritesTarget(store: Store, topo: Topo, basin: string, d: CalendarDate, masked: Option<Slice>)
    requires !(WaterYearOf(d) in store && Validate(store[WaterYearOf(d)], topo, basin, d, WaterYearOf(d)).Fail?)
    ensures var c := Target(store, topo, basin, d);
      var t := TimeValue(WaterYearOf(d) - 1, d);
      && (masked.None? ==> Ingest(store, topo, basin, d, masked) == (Fail(MaskFailed), store[WaterYearOf(d) := c.(timeAxis := c.timeAxis + [t])]))
      && (masked.Some? ==> Ingest(store, topo, basin, d, masked) == (Pass, store[WaterYearOf(d) := c.(timeAxis := c.timeAxis + [t], depth := c.depth[|c.timeAxis| := masked.value])]))
  {
    var wy := WaterYearOf(d);
    var c := Target(store, topo, basin, d);
    IngestCases(store, topo, basin, d, masked);
    assert c.epochYear == wy - 1;
    UnrecordedDateAppends(c, d);
  }

  lemma IngestRefusedWith(store: Store, topo: Topo, basin: string, d: CalendarDate, masked: Option<Slice>)
    requires WaterYearOf(d) in store && Validate(store[WaterYearOf(d)], topo, basin, d, WaterYearOf(d)).Fail?
    ensures Ingest(store, topo, basin, d, masked) == (Validate(store[WaterYearOf(d)], topo, basin, d, WaterYearOf(d)), store)
  {
    IngestCases(store, topo, basin, d, masked);
  }

  lemma IngestWrites(store: Store, topo: Topo, basin: string, d: CalendarDate, masked: Option<Slice>)
    requires !(WaterYearOf(d) in store && Validate(store[WaterYearOf(d)], topo, basin, d, WaterYearOf(d)).Fail?)
    ensures var w := WriteFlight(Target(store, topo, basin, d), d, masked);
      Ingest(store, topo, basin, d, masked) == (w.0, store[WaterYearOf(d) := w.1])
  {
    IngestCases(store, topo, basin, d, masked);
  }

  /** Every ingestion, whatever its outcome, keeps the layout of the output folder. */
  lemma IngestPreservesInvariant(store: Store, topo: Topo, basin: string, d: CalendarDate, masked: Option<Slice>)
    requires StoreInvariant(store)
    ensures StoreInvariant(Ingest(store, topo, basin, d, masked).1)
  {
    var wy := WaterYearOf(d);
    if !(wy in store && Validate(store[wy], topo, basin, d, wy).Fail?) {
      var c := Target(store, topo, basin, d);
      assert FileInvariant(wy, c);
      assert !DateRecorded(c, d);
      WriteKeepsFileInvariant(wy, c, d, masked);
    }
  }

  /** File c grows into file n: n's time axis extends c's, and every grid c stores n stores unchanged. */
  predicate Grows(c: CollectionData, n: CollectionData) {
    && c.timeAxis <= n.timeAxis
    && forall i :: i in c.depth ==> i in n.depth && n.depth[i] == c.depth[i]
  }

  /** Earlier flights are never lost or moved: every file's time axis only grows at its end, and stored grids stay. */
  lemma IngestKeepsEarlierFlights(store: Store, topo: Topo, basin: string, d: CalendarDate, masked: Option<Slice>)
    requires StoreInvariant(store)
    ensures var after := Ingest(store, topo, basin, d, masked).1;
      forall y :: y in store ==> y in after && Grows(store[y], after[y])
  {
    var wy := WaterYearOf(d);
    if wy in store && Validate(store[wy], topo, basin, d, wy).Fail? {
      IngestRefused(store, topo, basin, d, masked);
    } else {
      IngestWritesTarget(store, topo, basin, d, masked);
      var c := Target(store, topo, basin, d);
      var t := TimeValue(wy - 1, d);
      if wy in store {
        AppendGrows(store[wy], t, masked);
      }
      var n := if masked.None? then c.(timeAxis := c.timeAxis + [t])
               else c.(timeAxis := c.timeAxis + [t], depth := c.depth[|c.timeAxis| := masked.value]);
      UpdateGrows(store, wy, n);
    }
  }

  /** Replacing one file by a file it grows into grows every file of the folder. */
  lemma UpdateGrows(store: Store, y: int, n: CollectionData)
    requires y in store ==> Grows(store[y], n)
    ensures forall z :: z in store ==> z in store[y := n] && Grows(store[z], store[y := n][z])
  {
  }

  /** Appending a time, with or without a grid at the new index, grows a file whose grids lie within its axis. */
  lemma AppendGrows(c: CollectionData, t: int, masked: Option<Slice>)
    requires DepthWithinAxis(c)
    ensures Grows(c, c.(timeAxis := c.timeAxis + [t]))
    ensures masked.Some? ==> Grows(c, c.(timeAxis := c.timeAxis + [t], depth := c.depth[|c.timeAxis| := masked.value]))
  {
  }

  /** A flight whose date the file of its water year already holds is refused, and nothing is written. */
  lemma DuplicateFlightRefused(store: Store, topo: Topo, basin: string, d: CalendarDate, masked: Option<Slice>)
    requires WaterYearOf(d) in store && DateRecorded(store[WaterYearOf(d)], d)
    ensures Ingest(store, topo, basin, d, masked).0.Fail?
    ensures Ingest(store, topo, basin, d, masked).1 == store
  {
  }

  /**
   * Two flights of one basin and water year, on different dates, over a topo whose mask names
   * the basin: the first creates the file and the second passes all five checks and is appended.
   */
  lemma SecondFlightOfWaterYearAccepted(topo: Topo, basin: string, d1: CalendarDate, d2: CalendarDate, s1: Slice, s2: Slice)
    requires |topo.xs| > 0 && |topo.ys| > 0
    requires TopoNameCheck(topo.maskLongName, basin).Pass?
    requires WaterYearOf(d1) == WaterYearOf(d2) && d1 != d2
    ensures Ingest(map[], topo, basin, d1, Some(s1)).0 == Pass
    ensures var after := Ingest(map[], topo, basin, d1, Some(s1)).1;
      && Ingest(after, topo, basin, d2, Some(s2)).0 == Pass
      && |Ingest(after, topo, basin, d2, Some(s2)).1[WaterYearOf(d1)].timeAxis| == 2
  {
    var wy := WaterYearOf(d1);
    FirstFlightCreatesFile(topo, basin, d1, s1);
    var c := NewCollection(topo, basin, wy, wy - 1).(timeAxis := [TimeValue(wy - 1, d1)], depth := map[0 := s1]);
    var after := map[wy := c];
    assert Ingest(map[], topo, basin, d1, Some(s1)).1 == after;
    OneFlightFileAccepts(topo, basin, d1, d2, s1);
    assert Target(after, topo, basin, d2) == c;
    IngestWritesTarget(after, topo, basin, d2, Some(s2));
  }

  /** A file holding one flight of the basin accepts a flight of another date of the same water year. */
  lemma OneFlightFileAccepts(topo: Topo, basin: string, d1: CalendarDate, d2: CalendarDate, s1: Slice)
    requires |topo.xs| > 0 && |topo.ys| > 0
    requires TopoNameCheck(topo.maskLongName, basin).Pass?
    requires WaterYearOf(d1) == WaterYearOf(d2) && d1 != d2
    ensures var wy := WaterYearOf(d1);
      var c := NewCollection(topo, basin, wy, wy - 1).(timeAxis := [TimeValue(wy - 1, d1)], depth := map[0 := s1]);
      Validate(c, topo, basin, d2, wy).Pass?
  {
    var wy := WaterYearOf(d1);
    var c0 := NewCollection(topo, basin, wy, wy - 1);
    var c := c0.(timeAxis := [TimeValue(wy - 1, d1)], depth := map[0 := s1]);
    NewCollectionAcceptsItsBasin(topo, basin, wy, d2);
    OneDateRecorded(c, d1, d2);
    SameHeaderAccepts(c0, c, topo, basin, d2, wy);
  }

  /** A file whose axis holds only date d1 does not hold any other date. */
  lemma OneDateRecorded(c: CollectionData, d1: CalendarDate, d2: CalendarDate)
    requires c.timeAxis == [TimeValue(c.epochYear, d1)] && d1 != d2
    ensures !DateRecorded(c, d2)
  {
    TimeValueRoundTrip(c.epochYear, d1);
  }

  /** The checks other than the overwrite check read only a file's Title, coordinates and epoch year. */
  lemma SameHeaderAccepts(c0: CollectionData, c: CollectionData, topo: Topo, basin: string, d: CalendarDate, wy: int)
    requires c.title == c0.title && c.xs == c0.xs && c.ys == c0.ys && c.epochYear == c0.epochYear
    requires !BasinMismatched(c0.title, basin) && DomainCheck(topo, c0) == Pass && !WaterYearMismatched(c0.epochYear, wy)
    requires !DateRecorded(c, d) && TopoNameCheck(topo.maskLongName, basin).Pass?
    ensures Validate(c, topo, basin, d, wy).Pass?
  {
    assert DomainCheck(topo, c) == DomainCheck(topo, c0);
  }

  /** The first flight of a water year creates its file holding that one flight. */
  lemma FirstFlightCreatesFile(topo: Topo, basin: string, d: CalendarDate, s: Slice)
    ensures var wy := WaterYearOf(d);
      var c0 := NewCollection(topo, basin, wy, wy - 1);
      Ingest(map[], topo, basin, d, Some(s)) == (Pass, map[wy := c0.(timeAxis := [TimeValue(wy - 1, d)], depth := map[0 := s])])
  {
    var wy := WaterYearOf(d);
    var c0 := NewCollection(topo, basin, wy, wy - 1);
    var t := TimeValue(wy - 1, d);
    assert FindTime(c0.timeAxis, t) == 0;
    var w := WriteFlight(c0, d, Some(s));
    assert w.1.timeAxis == [t];
    assert w.1.depth == map[0 := s];
    assert w.1 == c0.(timeAxis := [t], depth := map[0 := s]);
  }

  /** create_lidar_netcdf as written: it reads start_yr, which the water-year code sets only from January to October. */
  function NewCollectionAsWritten(topo: Topo, basin: string, d: CalendarDate): (r: Result<CollectionData>)
    ensures r.Err? <==> d.month > 10
    ensures r.Ok? ==> r.value == NewCollection(topo, basin, WaterYearOf(d), StartYearOf(d))
  {
    var fields := YearFieldsAsWritten(d);
    match fields.startYear
    case None => Err(StartYearUnassigned)
    case Some(y) => Ok(NewCollection(topo, basin, fields.waterYear, y))
  }

  /**
   * A flight on November 3, 2019 that starts water year 2020: as written, creating its file fails;
   * with the start year set in both branches the file is created, counting from October 1, 2019.
   */
  lemma NovemberFlightStartsCollection(topo: Topo, basin: string, s: Slice)
    ensures NewCollectionAsWritten(topo, basin, Date(2019, 11, 3)) == Err(StartYearUnassigned)
    ensures Ingest(map[], topo, basin, Date(2019, 11, 3), Some(s)).0 == Pass
    ensures 2020 in Ingest(map[], topo, basin, Date(2019, 11, 3), Some(s)).1
    ensures Ingest(map[], topo, basin, Date(2019, 11, 3), Some(s)).1[2020].epochYear == 2019
  {
    FirstFlightCreatesFile(topo, basin, Date(2019, 11, 3), s);
  }

  /** The output folder: the collection file of each water year that has one. */
  class OutputDir {
    var files: Store

    /** Closing a handle writes its state to the file of water year wy. */
    method Save(wy: int, c: Collection)
      modifies this
      ensures files == old(files)[wy := c.Data()]
    {
      files := files[wy := c.Data()];
    }
  }

  /** A GRM object: its topo, image and basin name, and the date fields add_to_collection sets. */
  class Grm {
    const topo: Topo
    const image: Image
    const basin: string
    var date: Option<DateArg>
    var waterYear: Option<int>
    var startYear: Option<int>

    /** GRM.__init__: the basin id becomes its display name. */
    constructor Init(topo: Topo, image: Image, basinId: string, date: Option<DateArg>)
      ensures this.topo == topo && this.image == image && this.date == date
      ensures basin == DisplayName(basinId)
      ensures waterYear.None? && startYear.None?
    {
      this.topo := topo;
      this.image := image;
      this.basin := DisplayName(basinId);
      this.date := date;
      waterYear := None;
      startYear := None;
    }

    /** run_grm */
    method Run(dir: OutputDir, toDatetime: string -> Option<CalendarDate>) returns (o: Outcome)
      modifies this, dir
      ensures (o, dir.files) == RunSpec(old(dir.files), topo, basin, old(date), image, toDatetime)
    {
      if !image.warped {
        return Fail(WarpFailed);
      }
      o := AddToCollection(dir, toDatetime);
    }

    /** add_to_collection, with the start year set in both branches of the water-year code. */
    method AddToCollection(dir: OutputDir, toDatetime: string -> Option<CalendarDate>) returns (o: Outcome)
      modifies this, dir
      ensures (o, dir.files) == AddSpec(old(dir.files), topo, basin, old(date), image, toDatetime)
      ensures var r := ResolveDate(old(date), image.path, toDatetime);
        r.Ok? ==> date == Some(Parsed(r.value)) && waterYear == Some(WaterYearOf(r.value)) && startYear == Some(StartYearOf(r.value))
    {
      var resolved := FlightDate(toDatetime);
      if resolved.Err? {
        return Fail(resolved.error);
      }
      var d := resolved.value;
      date := Some(Parsed(d));

      var wy := d.year;
      if d.month <= 10 {
        startYear := Some(wy - 1);
      } else {
        wy := wy + 1;
        startYear := Some(wy - 1);
      }
      waterYear := Some(wy);
      o := IngestFlight(dir, d, wy, startYear.value);
    }

    /** The date step of add_to_collection: the file name is parsed only when no date was passed. */
    method FlightDate(toDatetime: string -> Option<CalendarDate>) returns (r: Result<CalendarDate>)
      ensures r == ResolveDate(date, image.path, toDatetime)
    {
      if date.None? {
        var parsed := ParseFnameDate(image.path, toDatetime);
        if parsed.None? {
          return Err(DateParseFailed);
        }
        return Ok(parsed.value);
      }
      match date.value
      case Given(s) =>
        var parsed := toDatetime(s);
        if parsed.None? {
          return Err(DateParseFailed);
        }
        return Ok(parsed.value);
      case Parsed(v) =>
        return Ok(v);
      case Unparsed =>
        return Err(NoDate);
    }

    /** The five checks on an existing file, in add_to_collection's order; the first to raise stops the run. */
    method RunChecks(c: CollectionData, d: CalendarDate, wy: int) returns (o: Outcome)
      ensures o == Validate(c, topo, basin, d, wy)
    {
      o := HandleError(BasinMismatched(c.title, basin), BasinMismatch);
      if o.Fail? {
        return;
      }
      o := CheckDomainMatch(topo, c);
      if o.Fail? {
        return;
      }
      o := HandleError(WaterYearMismatched(c.epochYear, wy), WaterYearMismatch);
      if o.Fail? {
        return;
      }
      o := HandleError(DateRecorded(c, d), DuplicateDate);
      if o.Fail? {
        return;
      }
      o := CheckTopoBasinName(topo.maskLongName, basin);
    }

    /** add_to_collection after the date: open or create the file, check, write the time, mask, write the depth. */
    method IngestFlight(dir: OutputDir, d: CalendarDate, wy: int, startYr: int) returns (o: Outcome)
      requires wy == WaterYearOf(d) && startYr == StartYearOf(d)
      modifies dir
      ensures (o, dir.files) == Ingest(old(dir.files), topo, basin, d, image.masked)
    {
      ghost var store := dir.files;
      var c;
      o, c := OpenTarget(dir, d, wy, startYr);
      if o.Fail? {
        IngestRefusedWith(store, topo, basin, d, image.masked);
        return;
      }
      o := WriteFlightTo(c, d);
      IngestWrites(store, topo, basin, d, image.masked);
      dir.Save(wy, c);
    }

    /** The file of the flight's water year: opened and checked when it exists, created otherwise. */
    method OpenTarget(dir: OutputDir, d: CalendarDate, wy: int, startYr: int) returns (o: Outcome, c: Collection)
      requires wy == WaterYearOf(d) && startYr == StartYearOf(d)
      ensures o.Fail? <==> wy in dir.files && Validate(dir.files[wy], topo, basin, d, wy).Fail?
      ensures o.Fail? ==> o == Validate(dir.files[wy], topo, basin, d, wy)
      ensures o.Pass? ==> fresh(c) && c.Data() == Target(dir.files, topo, basin, d)
    {
      if wy in dir.files {
        c := new Collection.Open(dir.files[wy]);
        o := RunChecks(c.Data(), d, wy);
      } else {
        c := new Collection.Create(topo, basin, wy, startYr);
        o := Pass;
      }
    }

    /** get_time_index, then the masked grid written at that index; a failed mask leaves the time written. */
    method WriteFlightTo(c: Collection, d: CalendarDate) returns (o: Outcome)
      modifies c
      ensures (o, c.Data()) == WriteFlight(old(c.Data()), d, image.masked)
    {
      var index := c.GetTimeIndex(d);
      if image.masked.None? {
        return Fail(MaskFailed);
      }
      c.WriteDepth(index, image.masked.value);
      o := Pass;
    }
  }
}
