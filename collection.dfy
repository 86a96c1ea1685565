/**
 * One lidar collection file (lidar_depths_wy<year>.nc) and the consistency checks
 * that gate every write to an existing one. The file's state is a class whose
 * fields the ingestion updates in place; CollectionData is its value.
 */
module Collection {
  import opened Outcomes
  import opened Calendar
  import opened Text
  import opened WaterYear
  import opened Basin

  /** One depth grid as read from the warped and masked raster; its cells are not interpreted. */
  type Slice = seq<real>

  /** What GRM reads from the topo file: the x and y coordinate vectors and the mask's long_name. */
  datatype Topo = Topo(xs: seq<real>, ys: seq<real>, maskLongName: string)

  /**
   * The state of one collection file: the time axis (hours since October 1 of epochYear, which
   * is what the "hours since ..." units string records), the Title attribute, the x and y
   * coordinates copied from the topo, and the depth slices stored per time index.
   */
  datatype CollectionData = CollectionData(
    timeAxis: seq<int>,
    title: string,
    xs: seq<real>,
    ys: seq<real>,
    epochYear: int,
    depth: map<nat, Slice>)

  /** The file create_lidar_netcdf makes: the topo's coordinates, an empty time axis, no depth yet. */
  function NewCollection(topo: Topo, basin: string, waterYear: int, startYear: int): CollectionData {
    CollectionData([], CollectionTitle(basin, waterYear), topo.xs, topo.ys, startYear, map[])
  }

  /** Every stored depth slice sits at an index the time axis has. */
  predicate DepthWithinAxis(c: CollectionData) {
    forall i :: i in c.depth ==> i < |c.timeAxis|
  }

  /** No two stored times fall on the same calendar date. */
  predicate DistinctDates(epochYear: int, axis: seq<int>) {
    forall i, j :: 0 <= i < j < |axis| ==> DateOfHours(epochYear, axis[i]) != DateOfHours(epochYear, axis[j])
  }

  predicate WellFormed(c: CollectionData) {
    DepthWithinAxis(c) && DistinctDates(c.epochYear, c.timeAxis)
  }

  // ---------------------------------------------------------------- time index

  /** The first position of t on the axis, or the axis length when t is absent. */
  function FindTime(axis: seq<int>, t: int): (index: nat)
    ensures index <= |axis|
    ensures index < |axis| ==> axis[index] == t
    ensures forall j :: 0 <= j < index ==> axis[j] != t
    ensures index == |axis| <==> t !in axis
  {
    if |axis| == 0 then 0
    else if axis[0] == t then 0
    else
      assert forall j :: 1 <= j < |axis| ==> axis[j] == axis[1..][j - 1];
      1 + FindTime(axis[1..], t)
  }

  /** times[index] = t on an unlimited dimension: writing one past the end extends it. */
  function SetTime(axis: seq<int>, index: nat, t: int): (r: seq<int>)
    requires index <= |axis|
    ensures |r| == if index == |axis| then |axis| + 1 else |axis|
    ensures r[index] == t
    ensures forall j :: 0 <= j < |axis| && j != index ==> r[j] == axis[j]
  {
    if index == |axis| then axis + [t] else axis[index := t]
  }

  /** np.where(times[:] == t): the search for t on the time axis. */
  method IndexOfTime(axis: seq<int>, t: int) returns (index: nat)
    ensures index == FindTime(axis, t)
  {
    index := 0;
    while index < |axis| && axis[index] != t
      invariant index <= |axis|
      invariant forall j :: 0 <= j < index ==> axis[j] != t
    {
      index := index + 1;
    }
    FindTimeIsFirst(axis, t, index);
  }

  lemma FindTimeIsFirst(axis: seq<int>, t: int, index: nat)
    requires index <= |axis|
    requires forall j :: 0 <= j < index ==> axis[j] != t
    requires index < |axis| ==> axis[index] == t
    ensures index == FindTime(axis, t)
  {
    var f := FindTime(axis, t);
    assert f <= index;
  }

  /** The time index of t found again after more times were appended is unchanged. */
  lemma FindTimeStable(axis: seq<int>, more: seq<int>, t: int)
    requires t in axis
    ensures FindTime(axis + more, t) == FindTime(axis, t)
  {
    FindTimeIsFirst(axis + more, t, FindTime(axis, t));
  }

  /** Writing t at its own index leaves the axis as it is, or appends t when it was absent. */
  lemma SetTimeAtFoundIndex(axis: seq<int>, t: int)
    ensures FindTime(axis, t) < |axis| ==> SetTime(axis, FindTime(axis, t), t) == axis
    ensures FindTime(axis, t) == |axis| ==> SetTime(axis, FindTime(axis, t), t) == axis + [t]
  {
  }

  // ---------------------------------------------------------------- checks

  /** handle_error: raise the check's error exactly when its flag is set. */
  function HandleError(error: bool, failure: Failure): (o: Outcome)
    ensures o.Fail? <==> error
    ensures o.Fail? ==> o.error == failure
  {
    if error then Fail(failure) else Pass
  }

  /** check_basin_match's error flag: the lower-cased basin name is not in the lower-cased Title. */
  predicate BasinMismatched(title: string, basin: string) {
    !Contains(Lower(title), Lower(basin))
  }

  function SeqMax(s: seq<real>): (m: real)
    requires |s| > 0
    ensures m in s && forall i :: 0 <= i < |s| ==> s[i] <= m
  {
    if |s| == 1 then s[0]
    else
      var rest := SeqMax(s[1..]);
      assert forall i :: 1 <= i < |s| ==> s[i] == s[1..][i - 1];
      if s[0] >= rest then s[0] else rest
  }

  function SeqMin(s: seq<real>): (m: real)
    requires |s| > 0
    ensures m in s && forall i :: 0 <= i < |s| ==> m <= s[i]
  {
    if |s| == 1 then s[0]
    else
      var rest := SeqMin(s[1..]);
      assert forall i :: 1 <= i < |s| ==> s[i] == s[1..][i - 1];
      if s[0] <= rest then s[0] else rest
  }

  /** The two reductions check_domain_match applies to a coordinate vector: 0 is np.max, 1 is np.min. */
  function Extreme(fn: int, s: seq<real>): real
    requires |s| > 0
  {
    if fn == 0 then SeqMax(s) else SeqMin(s)
  }

  /** A topo axis and a collection axis agree: same maximum, same minimum, same length. */
  predicate SameAxis(a: seq<real>, b: seq<real>)
    requires |a| > 0 && |b| > 0
  {
    SeqMax(a) == SeqMax(b) && SeqMin(a) == SeqMin(b) && |a| == |b|
  }

  /** check_domain_match: np.max of an empty axis raises; otherwise it fails when either axis disagrees. */
  function DomainCheck(topo: Topo, c: CollectionData): Outcome {
    if |topo.xs| == 0 || |c.xs| == 0 || |topo.ys| == 0 || |c.ys| == 0 then Fail(EmptyCoordinates)
    else HandleError(!SameAxis(topo.xs, c.xs) || !SameAxis(topo.ys, c.ys), DomainMismatch)
  }

  /** The coordinate vectors check_domain_match compares for axis v: 0 is x, 1 is y. */
  function TopoAxis(topo: Topo, v: int): seq<real> {
    if v == 0 then topo.xs else topo.ys
  }

  function LidarAxis(c: CollectionData, v: int): seq<real> {
    if v == 0 then c.xs else c.ys
  }

  /** The error flag after the first `upto` reductions (max, then min) of one axis. */
  predicate ExtremesDiffer(a: seq<real>, b: seq<real>, upto: int)
    requires |a| > 0 && |b| > 0
  {
    (upto > 0 && SeqMax(a) != SeqMax(b)) || (upto > 1 && SeqMin(a) != SeqMin(b))
  }

  /** The error flag after the first `upto` axes. */
  predicate AxesDiffer(topo: Topo, c: CollectionData, upto: int)
    requires upto > 0 ==> |topo.xs| > 0 && |c.xs| > 0
    requires upto > 1 ==> |topo.ys| > 0 && |c.ys| > 0
  {
    (upto > 0 && !SameAxis(topo.xs, c.xs)) || (upto > 1 && !SameAxis(topo.ys, c.ys))
  }

  /** check_domain_match with its loops over the axes and over max and min, and its error flag. */
  method CheckDomainMatch(topo: Topo, c: CollectionData) returns (o: Outcome)
    ensures o == DomainCheck(topo, c)
  {
    var error := false;
    for v := 0 to 2
      invariant v > 0 ==> |topo.xs| > 0 && |c.xs| > 0
      invariant v > 1 ==> |topo.ys| > 0 && |c.ys| > 0
      invariant error == AxesDiffer(topo, c, v)
    {
      var fromTopo := TopoAxis(topo, v);
      var fromLidar := LidarAxis(c, v);
      if |fromTopo| == 0 || |fromLidar| == 0 {
        return Fail(EmptyCoordinates);
      }
      ghost var before := error;
      for fn := 0 to 2
        invariant error == (before || ExtremesDiffer(fromTopo, fromLidar, fn))
      {
        if Extreme(fn, fromTopo) != Extreme(fn, fromLidar) {
          error := true;
        }
      }
      if |fromTopo| != |fromLidar| {
        error := true;
      }
    }
    o := HandleError(error, DomainMismatch);
  }

  /** check_water_year_match's error flag: the year in the time units plus one is not the image's water year. */
  predicate WaterYearMismatched(epochYear: int, waterYear: int) {
    epochYear + 1 != waterYear
  }

  /** check_overwrite's error flag: some stored time converts back to the image's calendar date. */
  predicate DateRecorded(c: CollectionData, d: CalendarDate) {
    exists i :: 0 <= i < |c.timeAxis| && DateOfHours(c.epochYear, c.timeAxis[i]) == d
  }

  /** The mask name's space-separated words, lower-cased, without "river" and "basin". */
  function Keywords(maskLongName: string): seq<string> {
    DropGeneric(Split(Lower(maskLongName), ' '))
  }

  function DropGeneric(words: seq<string>): (r: seq<string>)
    ensures forall k :: 0 <= k < |r| ==> r[k] in words && r[k] != "river" && r[k] != "basin"
    ensures forall w :: w in words && w != "river" && w != "basin" ==> w in r
  {
    if words == [] then []
    else
      var rest := DropGeneric(words[1..]);
      assert forall w :: w in words[1..] ==> w in words;
      if words[0] == "river" || words[0] == "basin" then rest else [words[0]] + rest
  }

  /** check_topo_basin_name: with no keyword `found` is never bound; otherwise it fails when no keyword is in the basin name. */
  function TopoNameCheck(maskLongName: string, basin: string): Outcome {
    var keys := Keywords(maskLongName);
    if |keys| == 0 then Fail(MaskNameUnbound)
    else HandleError(!exists k :: 0 <= k < |keys| && Contains(Lower(basin), keys[k]), MaskNameMismatch)
  }

  /** check_topo_basin_name, with its loop, its `found` flag and its break. */
  method CheckTopoBasinName(maskLongName: string, basin: string) returns (o: Outcome)
    ensures o == TopoNameCheck(maskLongName, basin)
  {
    var topoMask := Lower(maskLongName);
    var keywords := DropGeneric(Split(topoMask, ' '));
    var found: Option<bool> := None;
    var i := 0;
    while i < |keywords|
      invariant 0 <= i <= |keywords|
      invariant found.None? <==> i == 0
      invariant found.Some? ==> !found.value
      invariant forall k :: 0 <= k < i ==> !Contains(Lower(basin), keywords[k])
    {
      if Contains(Lower(basin), keywords[i]) {
        found := Some(true);
        break;
      } else {
        found := Some(false);
      }
      i := i + 1;
    }
    if found.None? {
      return Fail(MaskNameUnbound);
    }
    o := HandleError(!found.value, MaskNameMismatch);
  }

  /** The five checks of add_to_collection, in its order; the first to fail decides the error. */
  function Validate(c: CollectionData, topo: Topo, basin: string, d: CalendarDate, waterYear: int): (o: Outcome)
    ensures o.Pass? <==>
      && !BasinMismatched(c.title, basin)
      && DomainCheck(topo, c).Pass?
      && !WaterYearMismatched(c.epochYear, waterYear)
      && !DateRecorded(c, d)
      && TopoNameCheck(topo.maskLongName, basin).Pass?
    ensures o.Fail? ==> o.error in {BasinMismatch, EmptyCoordinates, DomainMismatch, WaterYearMismatch, DuplicateDate, MaskNameMismatch, MaskNameUnbound}
  {
    var basinCheck := HandleError(BasinMismatched(c.title, basin), BasinMismatch);
    if basinCheck.Fail? then basinCheck
    else
      var domainCheck := DomainCheck(topo, c);
      if domainCheck.Fail? then domainCheck
      else
        var yearCheck := HandleError(WaterYearMismatched(c.epochYear, waterYear), WaterYearMismatch);
        if yearCheck.Fail? then yearCheck
        else
          var overwriteCheck := HandleError(DateRecorded(c, d), DuplicateDate);
          if overwriteCheck.Fail? then overwriteCheck
          else TopoNameCheck(topo.maskLongName, basin)
  }

  /** A date not yet in the collection gets a fresh time value: get_time_index appends it. */
  lemma UnrecordedDateAppends(c: CollectionData, d: CalendarDate)
    requires !DateRecorded(c, d)
    ensures FindTime(c.timeAxis, TimeValue(c.epochYear, d)) == |c.timeAxis|
  {
    TimeValueRoundTrip(c.epochYear, d);
  }

  /** A collection whose axes differ in their maximum from the topo's is rejected as a domain mismatch. */
  lemma DomainCheckRejectsOtherExtent(topo: Topo, c: CollectionData)
    requires |topo.xs| > 0 && |c.xs| > 0 && |topo.ys| > 0 && |c.ys| > 0
    requires SeqMax(topo.xs) != SeqMax(c.xs) || SeqMax(topo.ys) != SeqMax(c.ys)
    ensures DomainCheck(topo, c) == Fail(DomainMismatch)
  {
  }

  /**
   * A collection created for a basin from this topo passes the basin, domain and
   * water-year checks of any later image of the same basin, topo and water year,
   * and holds no date yet.
   */
  lemma NewCollectionAcceptsItsBasin(topo: Topo, basin: string, waterYear: int, d: CalendarDate)
    requires |topo.xs| > 0 && |topo.ys| > 0
    requires WaterYearOf(d) == waterYear
    ensures !BasinMismatched(NewCollection(topo, basin, waterYear, waterYear - 1).title, basin)
    ensures DomainCheck(topo, NewCollection(topo, basin, waterYear, waterYear - 1)) == Pass
    ensures !WaterYearMismatched(NewCollection(topo, basin, waterYear, waterYear - 1).epochYear, WaterYearOf(d))
    ensures !DateRecorded(NewCollection(topo, basin, waterYear, waterYear - 1), d)
  {
    TitleNamesBasin(basin, waterYear);
  }

  /** An open handle on a lidar collection file, updated in place. */
  class Collection {
    var timeAxis: seq<int>
    var title: string
    var xs: seq<real>
    var ys: seq<real>
    var epochYear: int
    var depth: map<nat, Slice>

    function Data(): CollectionData
      reads this
    {
      CollectionData(timeAxis, title, xs, ys, epochYear, depth)
    }

    /** create_lidar_netcdf */
    constructor Create(topo: Topo, basin: string, waterYear: int, startYear: int)
      ensures Data() == NewCollection(topo, basin, waterYear, startYear)
    {
      timeAxis := [];
      title := CollectionTitle(basin, waterYear);
      xs := topo.xs;
      ys := topo.ys;
      epochYear := startYear;
      depth := map[];
    }

    /** nc.Dataset(outfile, mode='a'): an open handle on an existing file. */
    constructor Open(data: CollectionData)
      ensures Data() == data
    {
      timeAxis := data.timeAxis;
      title := data.title;
      xs := data.xs;
      ys := data.ys;
      epochYear := data.epochYear;
      depth := data.depth;
    }

    /** get_time_index: find the image's time on the axis or append it, write it, return its index. */
    method GetTimeIndex(date: CalendarDate) returns (index: nat)
      modifies this
      ensures index == FindTime(old(timeAxis), TimeValue(epochYear, date))
      ensures Data() == old(Data()).(timeAxis := SetTime(old(timeAxis), index, TimeValue(epochYear, date)))
      ensures TimeValue(epochYear, date) in old(timeAxis) ==>
        index < |old(timeAxis)| && old(timeAxis)[index] == TimeValue(epochYear, date) && timeAxis == old(timeAxis)
      ensures TimeValue(epochYear, date) !in old(timeAxis) ==>
        index == |old(timeAxis)| && timeAxis == old(timeAxis) + [TimeValue(epochYear, date)]
    {
      var t := TimeValue(epochYear, date);
      index := IndexOfTime(timeAxis, t);
      SetTimeAtFoundIndex(timeAxis, t);
      timeAxis := SetTime(timeAxis, index, t);
    }

    /** self.ds.variables['depth'][index, :] = slice */
    method WriteDepth(index: nat, slice: Slice)
      modifies this
      ensures Data() == old(Data()).(depth := old(depth)[index := slice])
    {
      depth := depth[index := slice];
    }
  }
}
