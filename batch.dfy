/**
 * main: the batch over several images. Each image gets a date (from --dates, or from its
 * file name), the images go into a dictionary keyed by date (a later image replaces an
 * earlier one with the same date), and the keys are run in sorted order. A failing run is
 * counted as a skip, unless debugging without --allow_exceptions, where it ends the batch.
 */
module Batch {
  import opened Outcomes
  import opened Calendar
  import opened FilenameDate
  import opened Collection
  import opened Basin
  import opened Grm

  // ---------------------------------------------------------------- key order

  /** Python's `<` on str: code point by code point, a proper prefix first. */
  predicate StrLess(a: string, b: string) {
    if |a| == 0 then |b| > 0
    else if |b| == 0 then false
    else a[0] < b[0] || (a[0] == b[0] && StrLess(a[1..], b[1..]))
  }

  lemma {:induction false} StrLessIrreflexive(a: string)
    ensures !StrLess(a, a)
  {
    if |a| > 0 {
      StrLessIrreflexive(a[1..]);
    }
  }

  lemma {:induction false} StrLessTransitive(a: string, b: string, c: string)
    requires StrLess(a, b) && StrLess(b, c)
    ensures StrLess(a, c)
  {
    if |a| > 0 && a[0] == b[0] && b[0] == c[0] {
      StrLessTransitive(a[1..], b[1..], c[1..]);
    }
  }

  lemma {:induction false} StrLessTotal(a: string, b: string)
    requires a != b
    ensures StrLess(a, b) || StrLess(b, a)
  {
    if |a| > 0 && |b| > 0 && a[0] == b[0] {
      assert a == [a[0]] + a[1..] && b == [b[0]] + b[1..];
      StrLessTotal(a[1..], b[1..]);
    }
  }

  /** Keys of different kinds never meet in one batch; this rank only makes the order total. */
  function KindRank(k: DateArg): int {
    match k
    case Given(_) => 0
    case Parsed(_) => 1
    case Unparsed => 2
  }

  /** sorted()'s `<` on the dictionary's keys: --dates strings as strings, parsed dates chronologically. */
  predicate KeyLess(a: DateArg, b: DateArg) {
    if a.Given? && b.Given? then StrLess(a.s, b.s)
    else if a.Parsed? && b.Parsed? then DateBefore(a.d, b.d)
    else KindRank(a) < KindRank(b)
  }

  /** KeyLess is a strict total order. */
  lemma KeyLessOrder(a: DateArg, b: DateArg, c: DateArg)
    ensures !KeyLess(a, a)
    ensures KeyLess(a, b) && KeyLess(b, c) ==> KeyLess(a, c)
    ensures a != b ==> KeyLess(a, b) || KeyLess(b, a)
  {
    if a.Given? {
      StrLessIrreflexive(a.s);
      if b.Given? && c.Given? && KeyLess(a, b) && KeyLess(b, c) {
        StrLessTransitive(a.s, b.s, c.s);
      }
      if b.Given? && a != b {
        StrLessTotal(a.s, b.s);
      }
    }
  }

  predicate StrictlySorted(s: seq<DateArg>) {
    forall i, j :: 0 <= i < j < |s| ==> KeyLess(s[i], s[j])
  }

  /** One step of sorting the keys: k joins a sorted sequence at its place, or not at all if present. */
  function InsertKey(s: seq<DateArg>, k: DateArg): (r: seq<DateArg>)
    requires StrictlySorted(s)
    ensures StrictlySorted(r)
    ensures forall x :: x in r <==> x in s || x == k
  {
    if |s| == 0 then [k]
    else if s[0] == k then s
    else if KeyLess(k, s[0]) then
      forall j | 0 <= j < |s| ensures KeyLess(k, s[j]) {
        KeyLessOrder(k, s[0], s[j]);
      }
      [k] + s
    else
      KeyLessOrder(k, s[0], k);
      var rest := InsertKey(s[1..], k);
      forall j | 0 <= j < |rest| ensures KeyLess(s[0], rest[j]) {
        if rest[j] != k {
          assert rest[j] in s[1..];
        }
      }
      [s[0]] + rest
  }

  /** sorted(image_dict.keys()): each date once, in increasing order. */
  function SortKeys(dates: seq<DateArg>): (r: seq<DateArg>)
    ensures StrictlySorted(r)
    ensures forall x :: x in r <==> x in dates
  {
    if |dates| == 0 then []
    else InsertKey(SortKeys(dates[..|dates| - 1]), dates[|dates| - 1])
  }

  // ---------------------------------------------------------------- dates and images

  /** What parse_fname_date gives, as a dictionary key. */
  function ParsedKey(parsed: Option<CalendarDate>): DateArg {
    if parsed.None? then Unparsed else Parsed(parsed.value)
  }

  /** The date list: the --dates strings when there are any, otherwise one parse per image. */
  function BatchDates(images: seq<Image>, argDates: seq<string>, toDatetime: string -> Option<CalendarDate>): (dates: seq<DateArg>)
    ensures |argDates| == 0 ==> |dates| == |images|
  {
    if |argDates| > 0 then seq(|argDates|, i requires 0 <= i < |argDates| => Given(argDates[i]))
    else seq(|images|, i requires 0 <= i < |images| => ParsedKey(FirstParsed(NameSegments(images[i].path), toDatetime)))
  }

  /** {k: v for (k, v) in zip(dates, images)} */
  function ImageDict(dates: seq<DateArg>, images: seq<Image>): (dict: map<DateArg, Image>)
    requires |dates| == |images|
    ensures forall k :: k in dict <==> k in dates
  {
    if |dates| == 0 then map[]
    else ImageDict(dates[..|dates| - 1], images[..|images| - 1])[dates[|dates| - 1] := images[|images| - 1]]
  }

  /** A key's image is the image of the last position that has that date: duplicates keep the later image. */
  lemma {:induction false} ImageDictLastWins(dates: seq<DateArg>, images: seq<Image>, i: int)
    requires |dates| == |images| && 0 <= i < |dates|
    requires forall j :: i < j < |dates| ==> dates[j] != dates[i]
    ensures ImageDict(dates, images)[dates[i]] == images[i]
  {
    var n := |dates| - 1;
    if i < n {
      ImageDictLastWins(dates[..n], images[..n], i);
    }
  }

  // ---------------------------------------------------------------- the batch

  /** How a batch ends: aborted by an exception, or completed with its count of runs passed and skipped. */
  datatype BatchOutcome = Aborted(error: Failure) | Completed(passed: nat, skips: nat)

  /** One GRM run of main's loop: the output folder before it, the key, the key's image; the outcome and the folder after. */
  type Runner = (Store, DateArg, Image) -> (Outcome, Store)

  /** run_grm for a key and its image, as main calls it. */
  function GrmRun(topo: Topo, basin: string, toDatetime: string -> Option<CalendarDate>): Runner {
    (s: Store, k: DateArg, image: Image) => RunSpec(s, topo, basin, Some(k), image, toDatetime)
  }

  /** run agrees with run_grm on every folder, key and image. */
  ghost predicate IsGrmRun(run: Runner, topo: Topo, basin: string, toDatetime: string -> Option<CalendarDate>) {
    forall s, k, image {:trigger RunSpec(s, topo, basin, Some(k), image, toDatetime)} ::
      run(s, k, image) == RunSpec(s, topo, basin, Some(k), image, toDatetime)
  }

  lemma GrmRunIsGrmRun(topo: Topo, basin: string, toDatetime: string -> Option<CalendarDate>)
    ensures IsGrmRun(GrmRun(topo, basin, toDatetime), topo, basin, toDatetime)
  {
  }

  /** The loop over the first n sorted keys: the first n - 1 of them, then key n - 1. */
  function RunKeys(store: Store, keys: seq<DateArg>, n: nat, dict: map<DateArg, Image>, run: Runner, strict: bool): (r: (BatchOutcome, Store))
    requires n <= |keys|
    requires forall k :: k in keys ==> k in dict
    ensures r.0.Completed? ==> r.0.passed + r.0.skips == n
    ensures !strict ==> r.0.Completed?
  {
    if n == 0 then (Completed(0, 0), store)
    else
      var prev := RunKeys(store, keys, n - 1, dict, run, strict);
      if prev.0.Aborted? then prev
      else Advance(prev.0, run(prev.1, keys[n - 1], dict[keys[n - 1]]), strict)
  }

  /** One more turn of the loop: the run of key i, from the state the first i keys left, is folded in by Advance. */
  lemma RunKeysStep(store: Store, keys: seq<DateArg>, dict: map<DateArg, Image>, run: Runner, strict: bool,
                    i: nat, passed: nat, skips: nat, before: Store, o: Outcome, after: Store)
    requires forall k :: k in keys ==> k in dict
    requires i < |keys|
    requires RunKeys(store, keys, i, dict, run, strict) == (Completed(passed, skips), before)
    requires (o, after) == run(before, keys[i], dict[keys[i]])
    ensures o.Pass? ==> RunKeys(store, keys, i + 1, dict, run, strict) == (Completed(passed + 1, skips), after)
    ensures o.Fail? && !strict ==> RunKeys(store, keys, i + 1, dict, run, strict) == (Completed(passed, skips + 1), after)
    ensures o.Fail? && strict ==> RunKeys(store, keys, i + 1, dict, run, strict) == (Aborted(o.error), after)
  {
  }

  /** Once a run has ended the batch, the remaining keys are never run: nothing more is written. */
  lemma {:induction false} AbortEndsBatch(store: Store, keys: seq<DateArg>, dict: map<DateArg, Image>, run: Runner, strict: bool,
                                          j: nat, n: nat)
    requires forall k :: k in keys ==> k in dict
    requires j <= n <= |keys|
    requires RunKeys(store, keys, j, dict, run, strict).0.Aborted?
    ensures RunKeys(store, keys, n, dict, run, strict) == RunKeys(store, keys, j, dict, run, strict)
  {
    if j < n {
      AbortEndsBatch(store, keys, dict, run, strict, j, n - 1);
    }
  }

  /** The loop body of main after one run: count it as passed, or as a skip, or let its error end the batch. */
  function Advance(counts: BatchOutcome, run: (Outcome, Store), strict: bool): (r: (BatchOutcome, Store))
    requires counts.Completed?
    ensures r.1 == run.1
    ensures r.0.Completed? ==> r.0.passed + r.0.skips == counts.passed + counts.skips + 1
    ensures r.0.Aborted? <==> run.0.Fail? && strict
  {
    if run.0.Pass? then (Completed(counts.passed + 1, counts.skips), run.1)
    else if strict then (Aborted(run.0.error), run.1)
    else (Completed(counts.passed, counts.skips + 1), run.1)
  }

  /** main after argument parsing, with run as each key's GRM run: dates, the count check, the dictionary, sorting, the loop. */
  function BatchSpec(store: Store, images: seq<Image>, argDates: seq<string>, debug: bool, allowExceptions: bool,
                     toDatetime: string -> Option<CalendarDate>, run: Runner): (BatchOutcome, Store) {
    var dates := BatchDates(images, argDates, toDatetime);
    if |dates| != |images| then (Aborted(DateCountMismatch), store)
    else
      var dict := ImageDict(dates, images);
      if Unparsed in dict && |dict| >= 2 then (Aborted(UnorderableDates), store)
      else
        var keys := SortKeys(dates);
        RunKeys(store, keys, |keys|, dict, run, debug && !allowExceptions)
  }

  /** A run that leaves every collection file it finds in its layout. */
  ghost predicate KeepsLayout(run: Runner) {
    forall s, k, image {:trigger run(s, k, image)} :: StoreInvariant(s) ==> StoreInvariant(run(s, k, image).1)
  }

  /** run_grm keeps the layout of every collection file. */
  lemma GrmRunKeepsLayout(topo: Topo, basin: string, toDatetime: string -> Option<CalendarDate>)
    ensures KeepsLayout(GrmRun(topo, basin, toDatetime))
  {
    forall s, k, image | StoreInvariant(s)
      ensures StoreInvariant(GrmRun(topo, basin, toDatetime)(s, k, image).1)
    {
      RunSpecPreservesInvariant(s, topo, basin, Some(k), image, toDatetime);
    }
  }

  /** Every collection file a batch leaves behind, even an aborted one, keeps its layout. */
  lemma {:induction false} RunKeysPreservesInvariant(store: Store, keys: seq<DateArg>, n: nat,
                                                     dict: map<DateArg, Image>, run: Runner, strict: bool)
    requires n <= |keys|
    requires forall k :: k in keys ==> k in dict
    requires KeepsLayout(run)
    requires StoreInvariant(store)
    ensures StoreInvariant(RunKeys(store, keys, n, dict, run, strict).1)
  {
    if n > 0 {
      RunKeysPreservesInvariant(store, keys, n - 1, dict, run, strict);
      var prev := RunKeys(store, keys, n - 1, dict, run, strict);
      if prev.0.Completed? {
        var after := run(prev.1, keys[n - 1], dict[keys[n - 1]]);
        assert StoreInvariant(after.1);
      }
    }
  }

  /** The whole of main, aborted or not, leaves every collection file in its layout. */
  lemma BatchKeepsLayout(store: Store, images: seq<Image>, argDates: seq<string>, debug: bool, allowExceptions: bool,
                         toDatetime: string -> Option<CalendarDate>, run: Runner)
    requires KeepsLayout(run)
    requires StoreInvariant(store)
    ensures StoreInvariant(BatchSpec(store, images, argDates, debug, allowExceptions, toDatetime, run).1)
  {
    BatchSpecCases(store, images, argDates, debug, allowExceptions, toDatetime, run);
    var dates := BatchDates(images, argDates, toDatetime);
    if |dates| == |images| {
      var keys := SortKeys(dates);
      RunKeysPreservesInvariant(store, keys, |keys|, ImageDict(dates, images), run, debug && !allowExceptions);
    }
  }

  /** When no image can be warped, a batch that catches errors writes nothing and skips every key. */
  lemma {:induction false} NothingWarpedNothingWritten(store: Store, topo: Topo, basin: string, keys: seq<DateArg>, n: nat,
                                                       dict: map<DateArg, Image>, toDatetime: string -> Option<CalendarDate>)
    requires n <= |keys|
    requires forall k :: k in keys ==> k in dict && !dict[k].warped
    ensures RunKeys(store, keys, n, dict, GrmRun(topo, basin, toDatetime), false) == (Completed(0, n), store)
  {
    if n > 0 {
      NothingWarpedNothingWritten(store, topo, basin, keys, n - 1, dict, toDatetime);
    }
  }

  /** The summary line: files processed, files given, and whether "No images were processed!" is warned. */
  datatype Summary = Summary(processed: int, total: int, noneProcessed: bool)

  /** The summary as written: both counts are taken against the number of images given. */
  function SummaryAsWritten(imageCount: nat, skips: nat): Summary {
    Summary(imageCount - skips, imageCount, skips == imageCount)
  }

  /** The summary counting the runs the loop made, one per distinct date. */
  function SummaryOf(imageCount: nat, outcome: BatchOutcome): (s: Summary)
    requires outcome.Completed?
    ensures s.processed == outcome.passed
    ensures s.noneProcessed <==> outcome.passed == 0
  {
    var runs := outcome.passed + outcome.skips;
    Summary(runs - outcome.skips, imageCount, outcome.skips == runs)
  }

  /**
   * Two images with the same date, neither of which can be warped: the dictionary keeps one,
   * its run fails and is skipped, nothing is written. As written the summary says one of two
   * files was processed and gives no warning; counted by runs it says none was, and warns.
   */
  lemma DuplicateDateOvercounts(store: Store, topo: Topo, basinId: string, a: Image, b: Image,
                                allowExceptions: bool, toDatetime: string -> Option<CalendarDate>)
    requires !a.warped && !b.warped
    ensures var r := BatchSpec(store, [a, b], ["20200414", "20200414"], false, allowExceptions, toDatetime, GrmRun(topo, DisplayName(basinId), toDatetime));
      && r == (Completed(0, 1), store)
      && SummaryAsWritten(2, r.0.skips) == Summary(1, 2, false)
      && SummaryOf(2, r.0) == Summary(0, 2, true)
  {
    var dates := BatchDates([a, b], ["20200414", "20200414"], toDatetime);
    assert dates == [Given("20200414"), Given("20200414")];
    var dict := ImageDict(dates, [a, b]);
    assert dict == map[Given("20200414") := b];
    assert SortKeys(dates[..1]) == [Given("20200414")] by {
      assert dates[..1][..0] == [];
    }
    var keys := SortKeys(dates);
    assert keys == [Given("20200414")];
    NothingWarpedNothingWritten(store, topo, DisplayName(basinId), keys, |keys|, dict, toDatetime);
  }

  /** main: the date list, the count check, the dictionary, the sorted loop with its skip count, the summary. */
  method RunBatch(dir: OutputDir, topo: Topo, basinId: string, images: seq<Image>, argDates: seq<string>,
                  debug: bool, allowExceptions: bool, toDatetime: string -> Option<CalendarDate>, ghost run: Runner)
    returns (r: BatchOutcome, summary: Option<Summary>)
    requires IsGrmRun(run, topo, DisplayName(basinId), toDatetime)
    modifies dir
    ensures (r, dir.files) == BatchSpec(old(dir.files), images, argDates, debug, allowExceptions, toDatetime, run)
    ensures summary.Some? <==> r.Completed?
    ensures r.Completed? ==> summary == Some(SummaryOf(|images|, r))
  {
    r := ProcessImages(dir, topo, basinId, images, argDates, debug, allowExceptions, toDatetime, run);
    summary := Summarize(|images|, r);
  }

  /** The closing summary of main, which only a completed batch reaches: the runs made less the skips. */
  method Summarize(imageCount: nat, r: BatchOutcome) returns (summary: Option<Summary>)
    ensures summary.Some? <==> r.Completed?
    ensures r.Completed? ==> summary == Some(SummaryOf(imageCount, r))
  {
    if r.Aborted? {
      return None;
    }
    var runs := r.passed + r.skips;
    summary := Some(Summary(runs - r.skips, imageCount, r.skips == runs));
  }

  /** main up to the summary: the date list, the count check, the dictionary and the sorted loop. */
  method ProcessImages(dir: OutputDir, topo: Topo, basinId: string, images: seq<Image>, argDates: seq<string>,
                       debug: bool, allowExceptions: bool, toDatetime: string -> Option<CalendarDate>, ghost run: Runner)
    returns (r: BatchOutcome)
    requires IsGrmRun(run, topo, DisplayName(basinId), toDatetime)
    modifies dir
    ensures (r, dir.files) == BatchSpec(old(dir.files), images, argDates, debug, allowExceptions, toDatetime, run)
  {
    BatchSpecCases(dir.files, images, argDates, debug, allowExceptions, toDatetime, run);
    var dates := CollectDates(images, argDates, toDatetime);
    if |dates| != |images| {
      return Aborted(DateCountMismatch);
    }
    var dict := ImageDict(dates, images);
    if Unparsed in dict && |dict| >= 2 {
      return Aborted(UnorderableDates);
    }
    var keys := SortKeys(dates);
    r := RunSortedKeys(dir, topo, basinId, keys, dict, debug && !allowExceptions, toDatetime, run);
  }

  /** The three ways main goes: the two aborts, which write nothing, and the loop over the sorted keys. */
  lemma BatchSpecCases(store: Store, images: seq<Image>, argDates: seq<string>, debug: bool, allowExceptions: bool,
                       toDatetime: string -> Option<CalendarDate>, run: Runner)
    ensures var dates := BatchDates(images, argDates, toDatetime);
      var spec := BatchSpec(store, images, argDates, debug, allowExceptions, toDatetime, run);
      && (|dates| != |images| ==> spec == (Aborted(DateCountMismatch), store))
      && (|dates| == |images| && Unparsed in ImageDict(dates, images) && |ImageDict(dates, images)| >= 2 ==>
            spec == (Aborted(UnorderableDates), store))
      && (|dates| == |images| && !(Unparsed in ImageDict(dates, images) && |ImageDict(dates, images)| >= 2) ==>
            spec == RunKeys(store, SortKeys(dates), |SortKeys(dates)|, ImageDict(dates, images), run, debug && !allowExceptions))
  {
  }

  /**
   * With failures caught (no --debug, or --allow_exceptions), the batch aborts exactly when
   * its arguments are wrong: a --dates list of another length than the image list, or an
   * unparsed image beside others. Such an abort comes before the loop and writes nothing.
   */
  lemma CaughtBatchAbortsOnArguments(store: Store, images: seq<Image>, argDates: seq<string>, debug: bool, allowExceptions: bool,
                                     toDatetime: string -> Option<CalendarDate>, run: Runner)
    requires !debug || allowExceptions
    ensures var dates := BatchDates(images, argDates, toDatetime);
      var spec := BatchSpec(store, images, argDates, debug, allowExceptions, toDatetime, run);
      && (spec.0.Aborted? <==>
            |dates| != |images| || (Unparsed in ImageDict(dates, images) && |ImageDict(dates, images)| >= 2))
      && (spec.0.Aborted? ==> spec.1 == store && (spec.0.error == DateCountMismatch || spec.0.error == UnorderableDates))
  {
  }

  /** The date list of main: --dates as given, or parse_fname_date on every image. */
  method CollectDates(images: seq<Image>, argDates: seq<string>, toDatetime: string -> Option<CalendarDate>)
    returns (dates: seq<DateArg>)
    ensures dates == BatchDates(images, argDates, toDatetime)
  {
    if |argDates| > 0 {
      return seq(|argDates|, i requires 0 <= i < |argDates| => Given(argDates[i]));
    }
    dates := [];
    for i := 0 to |images|
      invariant |dates| == i
      invariant forall j :: 0 <= j < i ==> dates[j] == ParsedKey(FirstParsed(NameSegments(images[j].path), toDatetime))
    {
      var parsed := ParseFnameDate(images[i].path, toDatetime);
      dates := dates + [ParsedKey(parsed)];
    }
  }

  /** The loop of main over the sorted keys: one GRM run per key, a skip per caught failure. */
  method RunSortedKeys(dir: OutputDir, topo: Topo, basinId: string, keys: seq<DateArg>, dict: map<DateArg, Image>,
                       strict: bool, toDatetime: string -> Option<CalendarDate>, ghost run: Runner) returns (r: BatchOutcome)
    requires forall k :: k in keys ==> k in dict
    requires IsGrmRun(run, topo, DisplayName(basinId), toDatetime)
    modifies dir
    ensures (r, dir.files) == RunKeys(old(dir.files), keys, |keys|, dict, run, strict)
  {
    ghost var start := dir.files;
    var passed, skips := 0, 0;
    for i := 0 to |keys|
      invariant RunKeys(start, keys, i, dict, run, strict) == (Completed(passed, skips), dir.files)
    {
      ghost var before := dir.files;
      var o := RunKey(dir, topo, basinId, keys[i], dict[keys[i]], toDatetime, run);
      RunKeysStep(start, keys, dict, run, strict, i, passed, skips, before, o, dir.files);
      if o.Fail? {
        if strict {
          AbortEndsBatch(start, keys, dict, run, strict, i + 1, |keys|);
          return Aborted(o.error);
        }
        skips := skips + 1;
      } else {
        passed := passed + 1;
      }
    }
    r := Completed(passed, skips);
  }

  /** One turn of main's loop: a GRM for the key and its image, run against the output folder. */
  method RunKey(dir: OutputDir, topo: Topo, basinId: string, d: DateArg, image: Image,
                toDatetime: string -> Option<CalendarDate>, ghost run: Runner) returns (o: Outcome)
    requires IsGrmRun(run, topo, DisplayName(basinId), toDatetime)
    modifies dir
    ensures (o, dir.files) == run(old(dir.files), d, image)
  {
    var g := new Grm.Init(topo, image, basinId, Some(d));
    o := g.Run(dir, toDatetime);
  }
}
