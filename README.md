# GRM and LANDFIRE vegetation height, modelled in Dafny

This project models two parts of `basin_setup`:

- **GRM**, the grid resizing and matching tool. It adds lidar snow-depth flights to one NetCDF
  collection file per water year in the output folder (`lidar_depths_wy<year>.nc`). The file's
  Title names its basin, and a flight of another basin is refused. The model covers:
  - the flight date taken from a file name (`parse_fname_date`);
  - the basin's display name;
  - the water-year rule;
  - the time index of a flight in its collection;
  - the five consistency checks, which run before anything is written to an existing collection;
  - the batch loop of `main`, with its skip count and summary.
- **`Landfire200.calculate_height`**, which turns an existing-vegetation-height (EVH) code
  raster into a height raster through a table of class heights.

The output folder is a map from water year to collection (`Grm.Store`). The effect of one run on
the folder is stated as functions:

- `Grm.Ingest`: `add_to_collection` once the date is known;
- `Grm.AddSpec`: `add_to_collection`;
- `Grm.RunSpec`: `run_grm`;
- `Batch.BatchSpec`: `main`.

These functions, and the methods proved equal to them, carry the corrected start year: `start_yr`
is the water year minus 1 in both branches of the water-year code. As written, the first November
or December flight of a water year fails instead (the first row of "## Findings"). Only
`Grm.NewCollectionAsWritten` and `Grm.NovemberFlightStartsCollection` model the code as written.

The imperative code is modelled as classes whose methods update their fields in place:

- `Grm.Grm` (the GRM object);
- `Collection.Collection` (an open collection file);
- `Grm.OutputDir` (the folder);
- `Landfire.Landfire200`.

Each method is proved equal to its specification function. The properties of those functions are
proved as lemmas, among them:

- a run never loses or moves an earlier flight;
- every collection keeps distinct dates, all in its own water year;
- a refused image leaves every file unchanged;
- the date parser and the time index both round-trip.

External effects are parameters of the model:

- `pd.to_datetime` on a digit string is the function parameter `toDatetime`.
  `FilenameDate.ParseYYYYMMDD` is its eight-digit case, for the days a nanosecond `Timestamp` can hold (1677-09-22 to 2262-04-11).
  With it plugged in, the docstring's example name gives April 14, 2020 (`FilenameDate.DocstringExampleDate`).
- Reading, warping and masking an image are summed up in `Grm.Image`:
  - `warped` says whether `gdalinfo`/`gdalwarp` succeed;
  - `masked` is the grid `mask_nc` produces, or `None` when reading or masking fails.
- The numbers the CLASSNAMES regex finds are the function parameter `numbers`.
- A GRM run inside `main` is a ghost parameter `run`. `Batch.IsGrmRun` requires it to agree
  with `run_grm` (`Grm.RunSpec`) everywhere.

The water-year rule follows the code: months up to and including October belong to the
calendar year's water year, November and December to the next one.

## Model

| member | source | states |
|---|---|---|
| Basin.DisplayNameLower | basin_setup/grm.py:137-144 | compared case-insensitively, `brb` is named "boise river basin", `lakes` "mammoth lakes basin", and every other id is the id followed by " river basin" |
| Basin.DisplayNameBoise | basin_setup/grm.py:137-144 | `brb` becomes exactly "Boise River Basin" |
| Basin.DisplayNameLakes | basin_setup/grm.py:137-144 | `lakes` becomes exactly "Mammoth Lakes Basin" |
| Basin.DisplayNameTuolumne | basin_setup/grm.py:140-144 | an id that is not renamed, `tuolumne`, becomes exactly "Tuolumne River Basin" |
| Basin.TitleNamesBasin | basin_setup/grm.py:240-241 | the Title a new collection gets contains the basin name, whatever the case, so check_basin_match accepts the basin that created the file |
| Text.TitleCaseSpaced | basin_setup/grm.py:144 | `title()` works word by word: title-casing words joined by a space title-cases each word on its own |
| Text.TitleCaseThreeWords | basin_setup/grm.py:144 | three space-separated words are each title-cased on their own |
| Text.TitleCaseLowerWord | basin_setup/grm.py:144 | a lower-case word is title-cased by capitalising its first letter only |
| Text.LowerOfTitleCase | basin_setup/grm.py:144 | title-casing changes only letter case: `title(s).lower() == s.lower()` |
| Text.ContainsIffOccurs | basin_setup/grm.py:434 | the substring test `a in b` holds exactly when `a` occurs in `b` at some position |
| Text.JoinSplit | basin_setup/grm.py:43 | `split` loses nothing: joining the pieces with the separator gives the string back |
| Text.SplitWithoutSeparator | basin_setup/grm.py:47-53 | a name without '_' splits into itself alone, so both branches of the underscore test give the same piece list |
| Text.DigitsEmptyIff | basin_setup/grm.py:58-62 | the digit filter of a piece is empty exactly when the piece has no digit |
| Text.NatToStringRoundTrip | basin_setup/grm.py:240-241 | the decimal rendering of the water year in the Title reads back as the same number |
| FilenameDate.NameSegments | basin_setup/grm.py:40-53 | every piece of the file name is free of '_', '.' and '/': it lies within the basename before its first '.' |
| FilenameDate.ParseFnameDate | basin_setup/grm.py:40-69 | the loop with its break returns the date of the first piece whose digits parse, or None |
| FilenameDate.FirstParsedIsFirst | basin_setup/grm.py:55-69 | the result is None exactly when no piece parses; otherwise it is the parse of some piece, and no earlier piece parses |
| FilenameDate.DigitlessPieceSkipped | basin_setup/grm.py:58-64 | a piece without digits is passed over (an empty `dt_str` is never parsed) |
| FilenameDate.ParseYYYYMMDD | basin_setup/grm.py:63 | an accepted eight-character string is exactly the YYYYMMDD rendering of the date it yields, and that date lies between 1677-09-22 and 2262-04-11 |
| FilenameDate.ParseFormatRoundTrip | basin_setup/grm.py:63 | every date from 1677-09-22 to 2262-04-11, written as YYYYMMDD, parses back to itself |
| FilenameDate.DatePieceFirst | basin_setup/grm.py:40-69 | a name whose first '_' piece is a digit-free prefix followed by the YYYYMMDD rendering of a date pandas can hold gives that date, with the eight-digit parser as pd.to_datetime |
| FilenameDate.DocstringExampleDate | basin_setup/grm.py:24-31 | the docstring's example name USCASJ20200414_SUPERsnow_depth_50p0m_agg.tif gives April 14, 2020 |
| WaterYear.YearFieldsAsWritten | basin_setup/grm.py:273-278 | the water year is the calendar year up to October and the next year after; start_yr is set, to water year - 1, only up to October |
| WaterYear.StartYearOf | basin_setup/grm.py:273-278 | the start year is one less than the water year, and agrees with the code's start_yr wherever the code sets it |
| WaterYear.TimeValueAtElevenPm | basin_setup/grm.py:364-366 | every time value is 23:00 of its day |
| WaterYear.TimeValueRoundTrip | basin_setup/grm.py:364-366 | converting a flight's time value back (`num2date`) gives the flight's date |
| WaterYear.DateOfHoursIff | basin_setup/grm.py:448-450 | a stored time converts to date d exactly when its whole-day part is d's day offset from October 1 of the epoch year |
| WaterYear.TimeValueInjective | basin_setup/grm.py:364-366 | two dates with the same time value are the same date |
| WaterYear.TimeValueWithinWaterYear | basin_setup/grm.py:209-219 | a flight's time value in its own water year's collection lies between 31 days and 396 days plus 23 hours, below 2^24, so the float32 time variable holds it exactly |
| WaterYear.TimeValueAcrossNewYear | basin_setup/grm.py:364-366 | flights on December 31 and the next January 1 share their water year's epoch, and the second's time value is exactly 24 hours later |
| Calendar.FromDayNumberRoundTrip | basin_setup/grm.py:448-450 | the standard-calendar conversion from day numbers inverts the conversion to day numbers |
| Calendar.DayNumberInjective | basin_setup/grm.py:448-450 | distinct valid dates have distinct day numbers |
| Calendar.DateBeforeIsDayOrder | basin_setup/grm.py:604 | comparing parsed dates orders them as their day numbers do |
| Calendar.NewYearFollows | basin_setup/grm.py:364-366 | January 1 is the day after December 31 of the previous year |
| Collection.FindTime | basin_setup/grm.py:369-377 | the index is the first position holding t, or the axis length exactly when t is absent |
| Collection.SetTime | basin_setup/grm.py:382 | writing t at the index grows the axis by one only at its end, puts t there and keeps every other entry |
| Collection.IndexOfTime | basin_setup/grm.py:369-377 | the search loop returns FindTime |
| Collection.FindTimeIsFirst | basin_setup/grm.py:369-377 | any index with t at it and no t before it is FindTime's answer |
| Collection.FindTimeStable | basin_setup/grm.py:369-377 | once a time is on the axis, appending more never changes its index |
| Collection.SetTimeAtFoundIndex | basin_setup/grm.py:369-382 | writing t at its found index leaves an axis that has t unchanged, and appends t to an axis that lacks it |
| Collection.Collection.GetTimeIndex | basin_setup/grm.py:362-384 | the index is FindTime of the flight's time value; a recorded time keeps the axis, a new one is appended at the end and nothing else changes |
| Collection.Collection.WriteDepth | basin_setup/grm.py:347 | the grid is stored at the index and nothing else changes |
| Collection.Collection.Create | basin_setup/grm.py:194-244 | a new file has the topo's coordinates, the basin and water year in its Title, the start year as epoch, an empty time axis and no grid |
| Collection.Collection.Open | basin_setup/grm.py:298 | opening a file exposes its stored state |
| Collection.HandleError | basin_setup/grm.py:148-156 | a check fails exactly when its error flag is set, and with its own error |
| Collection.CheckDomainMatch | basin_setup/grm.py:457-488 | both loops together agree with DomainCheck: an empty coordinate vector raises, otherwise the check fails exactly when an axis differs in maximum, minimum or length |
| Collection.DomainCheckRejectsOtherExtent | basin_setup/grm.py:469-478 | a collection whose x or y maximum differs from the topo's is rejected as a domain mismatch |
| Collection.DropGeneric | basin_setup/grm.py:395-396 | the keywords are exactly the mask-name words other than "river" and "basin" |
| Collection.CheckTopoBasinName | basin_setup/grm.py:386-408 | the loop with `found` and `break` agrees with TopoNameCheck: unbound `found` when there is no keyword, a mismatch when no keyword is in the basin name |
| Collection.Validate | basin_setup/grm.py:293-313 | an existing collection is accepted exactly when all five checks pass (basin, domain, water year, no duplicate date, mask name); a refusal carries one of the checks' errors |
| Collection.UnrecordedDateAppends | basin_setup/grm.py:369-377 | a date that check_overwrite lets through has a time value not yet on the axis, so get_time_index appends it |
| Collection.NewCollectionAcceptsItsBasin | basin_setup/grm.py:194-244 | a collection created for a basin and topo passes the basin, domain and water-year checks of a later image of the same basin, topo and water year, and records no date yet |
| Grm.IngestAppendsOneFlight | basin_setup/grm.py:292-350 | an ingestion passes exactly when the mask succeeds and no file exists or all checks pass. A pass appends the time and stores the grid. A mask failure leaves only the appended time. A refused check changes nothing. Files of other water years never change |
| Grm.IngestRefused | basin_setup/grm.py:293-313 | when a check of the existing file fails, the folder is unchanged and the error is a check's, not the mask's |
| Grm.IngestWritesTarget | basin_setup/grm.py:316-347 | when no check fails, the flight's time is appended to the target file; with a mask its grid is stored at the new index and the run passes, without one the run fails after the time write |
| Grm.WriteFlightAppends | basin_setup/grm.py:319-347 | for an unrecorded date, writing a flight appends its time at the end and stores the grid at that new index |
| Grm.WriteKeepsFileInvariant | basin_setup/grm.py:319-347 | writing an unrecorded flight of the file's water year keeps the file's layout |
| Grm.AppendKeepsDates | basin_setup/grm.py:362-384 | appending an unrecorded date keeps the axis dates distinct and within the water year |
| Grm.IngestPreservesInvariant | basin_setup/grm.py:292-350 | every ingestion, passed or failed, keeps each file's layout: the epoch is the year before its water year, the dates are distinct and in that water year, and grids sit at existing indices |
| Grm.RunSpecPreservesInvariant | basin_setup/grm.py:491-498 | a whole `run_grm`, whatever its outcome, keeps the layout of every file |
| Grm.IngestKeepsEarlierFlights | basin_setup/grm.py:292-350 | no file disappears, each file's time axis only grows at its end, and every stored grid stays where it was |
| Grm.DuplicateFlightRefused | basin_setup/grm.py:443-456 | a flight whose date its water year's file already holds fails and writes nothing |
| Grm.FirstFlightCreatesFile | basin_setup/grm.py:316-347 | into an empty folder, a flight creates its water year's file with one time value and its grid at index 0 |
| Grm.SecondFlightOfWaterYearAccepted | basin_setup/grm.py:292-350 | with a topo whose mask names the basin, two flights of one water year on different dates both pass, and the file ends with two times |
| Grm.OneFlightFileAccepts | basin_setup/grm.py:293-313 | a file holding one flight accepts any other date of its water year |
| Grm.NewCollectionAsWritten | basin_setup/grm.py:273-278 | create_lidar_netcdf as written fails exactly for November and December dates; otherwise it creates the intended file |
| Grm.NovemberFlightStartsCollection | basin_setup/grm.py:209 | a November 3, 2019 flight into an empty folder fails as written, while the corrected run creates the water year 2020 file with epoch 2019 |
| Grm.OutputDir.Save | basin_setup/grm.py:347-350 | closing a handle stores its state as its water year's file and changes no other file |
| Grm.Grm.Init | basin_setup/grm.py:105-144 | the GRM object keeps topo, image and date, and its basin is the display name of the id |
| Grm.Grm.Run | basin_setup/grm.py:491-498 | `run_grm` does what RunSpec says: a failed warp writes nothing, otherwise it runs add_to_collection |
| Grm.Grm.AddToCollection | basin_setup/grm.py:249-323 | `add_to_collection` does what AddSpec says; after it the date, water year and start year fields hold the resolved date's values |
| Grm.Grm.FlightDate | basin_setup/grm.py:258-270 | the file name is parsed only when no date was passed; a missing date raises |
| Grm.Grm.RunChecks | basin_setup/grm.py:300-313 | the five checks in the code's order give Validate |
| Grm.Grm.IngestFlight | basin_setup/grm.py:292-350 | opening or creating the file, checking, writing the time, masking and writing the grid do what Ingest says |
| Grm.Grm.OpenTarget | basin_setup/grm.py:292-317 | an existing file is opened and checked, and refused exactly when a check fails; otherwise the handle holds the target file, either existing or newly created |
| Grm.Grm.WriteFlightTo | basin_setup/grm.py:319-347 | get_time_index, then the grid at that index, do what WriteFlight says |
| Batch.KeyLessOrder | basin_setup/grm.py:604 | the order `sorted` uses on the keys is a strict total order |
| Batch.SortKeys | basin_setup/grm.py:604 | the loop order holds every date key once, in strictly increasing order |
| Batch.BatchDates | basin_setup/grm.py:586-590 | without --dates there is one date per image |
| Batch.CollectDates | basin_setup/grm.py:586-590 | the loop builds the date list: --dates as given, else parse_fname_date of each image |
| Batch.ImageDict | basin_setup/grm.py:599 | the dictionary's keys are exactly the dates |
| Batch.ImageDictLastWins | basin_setup/grm.py:599 | a date that appears more than once keeps the image of its last appearance |
| Batch.RunKeys | basin_setup/grm.py:604-629 | a completed loop counts every key as passed or skipped; a loop that catches errors always completes |
| Batch.Advance | basin_setup/grm.py:618-629 | a run ends the batch exactly when it fails while errors are not caught; otherwise it adds one to the count; the folder is the run's |
| Batch.AbortEndsBatch | basin_setup/grm.py:628-629 | after an uncaught failure no later key is run and nothing more is written |
| Batch.CaughtBatchAbortsOnArguments | basin_setup/grm.py:586-629 | with failures caught, the batch aborts exactly when the --dates count differs from the image count or a None key sits beside another key; such an abort names that error and writes nothing |
| Batch.RunBatch | basin_setup/grm.py:584-643 | `main` does what BatchSpec says to the folder; a summary is printed exactly when the batch completes, with the counts of SummaryOf |
| Batch.ProcessImages | basin_setup/grm.py:584-629 | dates, count check, dictionary, sorting and the loop give BatchSpec |
| Batch.RunSortedKeys | basin_setup/grm.py:604-629 | the loop over the sorted keys gives RunKeys, stopping at the first uncaught failure |
| Batch.RunKey | basin_setup/grm.py:610-620 | one turn builds a GRM for the key and its image and runs it against the folder |
| Batch.GrmRunIsGrmRun | basin_setup/grm.py:491-498 | run_grm itself is a valid run for the batch |
| Batch.GrmRunKeepsLayout | basin_setup/grm.py:491-498 | run_grm keeps the layout of every file it finds |
| Batch.RunKeysPreservesInvariant | basin_setup/grm.py:604-629 | the loop, aborted or not, keeps every file's layout |
| Batch.BatchKeepsLayout | basin_setup/grm.py:584-629 | a whole batch, aborted or not, keeps every file's layout |
| Batch.NothingWarpedNothingWritten | basin_setup/grm.py:618-626 | when errors are caught and no image can be warped, every key is skipped and the folder is unchanged |
| Batch.SummaryOf | basin_setup/grm.py:633-643 | the processed count is the number of runs that passed, and "No images were processed!" is warned exactly when none passed |
| Batch.Summarize | basin_setup/grm.py:633-643 | the summary exists exactly for a completed batch and is SummaryOf |
| Batch.DuplicateDateOvercounts | basin_setup/grm.py:633-643 | two unwarpable images with one date: as written the summary reports 1 of 2 processed with no warning; the corrected summary reports 0 and warns |
| Landfire.MeanWithinRange | basin_setup/generate_topo/vegetation/landfire_200.py:35-37 | a class height, the mean of its numbers, lies between their minimum and maximum |
| Landfire.SingleNumberHeight | basin_setup/generate_topo/vegetation/landfire_200.py:35-37 | a class name with one number gets exactly that height |
| Landfire.TableHeight | basin_setup/generate_topo/vegetation/landfire_200.py:49-50 | a code not in the table gets 0; a code in the table gets the height of its first row |
| Landfire.Unique | basin_setup/generate_topo/vegetation/landfire_200.py:44 | the unique codes are exactly the raster's codes, each once |
| Landfire.CellHeight | basin_setup/generate_topo/vegetation/landfire_200.py:32-50 | with distinct codes, a cell gets 0 when its code has no row, otherwise the mean of its row's numbers (0 if none) |
| Landfire.EqualCodesEqualHeights | basin_setup/generate_topo/vegetation/landfire_200.py:46-50 | cells with equal codes get equal heights |
| Landfire.BuildHeightTable | basin_setup/generate_topo/vegetation/landfire_200.py:32-37 | the row loop fills the table with each row's class height |
| Landfire.Reclassify | basin_setup/generate_topo/vegetation/landfire_200.py:43-50 | the loop over the unique codes leaves every cell at its code's table height, and at 0 for a code outside the table |
| Landfire.Landfire200.CalculateHeight | basin_setup/generate_topo/vegetation/landfire_200.py:23-55 | veg_height becomes the reclassified raster of the EVH codes, and the EVH raster is kept |

## Left out

- Reading the topo (`get_topo_stats`) and the image (`parse_gdalinfo`), and `grid_match` with its `gdalwarp` call (grm.py:128-134, 158-192): external tools. Their success is the `warped` flag of an image.
- NetCDF input and output: the fill-value-to-NaN step, `flipud` and `mask_nc` (grm.py:325-352). Their result is the `masked` grid, with `None` for a failure.
- Grid cells are never inspected. A grid is an opaque `seq<real>`, and the model has no NaN.
- The `last_modified`, `dateCreated` and `history` attributes and the variable attributes of a new collection: they come from the clock and the version, and no check reads them.
- `pd.to_datetime` beyond eight-digit YYYYMMDD strings: it is the parameter `toDatetime`. Time of day is not modelled: a date is a calendar day.
- The "standard" calendar before 1582-10-15, where it is Julian: the model uses the proleptic Gregorian calendar throughout.
- The float32 `time` variable. Time values are integers; WaterYear.TimeValueWithinWaterYear bounds them below 2^24, where float32 is exact.
- Letter case beyond ASCII: `lower()` and `title()` act on A-Z and a-z only.
- Logging, argparse (including the basin `choices`), timing, `mkdir` of the output folders and removal of the temporary folder.
- Exceptions are values: each raise becomes a `Failure`, and `main` either counts it as a skip or stops with it.
- Concurrent runs against one collection file.
- Reading the EVH csv (`read_csv`, `set_index`) and the CLASSNAMES regex: the table is a sequence of rows, and the numbers found in a class name are the parameter `numbers`.
- The order `np.unique` returns: the result does not depend on it.
- The NaN sanity check after the reclassification: reals have no NaN. The raster is a flat array.
- Landfire.CellHeight: stated only for tables with distinct VALUE codes. With repeated codes `veg_df.loc` returns several rows, which the model does not follow; it takes the first row (Landfire.TableHeight).
- Grm.NewCollectionAsWritten: models only the failure of the November or December flight, not the half-made file that `copy_nc` and `createDimension` (grm.py:206-207) leave behind before line 209 raises, nor what later flights of that water year meet when they open it. Grm.NovemberFlightStartsCollection likewise says nothing about that file.
- Text.Digits: keeps the ASCII digits '0'-'9' only, where `str.isnumeric()` (grm.py:58) also keeps other Unicode numeric characters (other scripts' digits, superscripts, vulgar fractions, Roman numerals). Text.DigitsEmptyIff and FilenameDate.ParseFnameDate are stated for that narrower filter.
- `basin_setup/generate_topo/main.py` and the tests are not part of this model.

## Findings

| source | as written | input that shows it | evidently intended | confidence | as-written member | corrected member |
|---|---|---|---|---|---|---|
| basin_setup/grm.py:273-278 | `start_yr` is assigned only when the month is at most 10; `create_lidar_netcdf` reads it at line 209 | the first flight of a water year on 2019-11-03, with no file for water year 2020 yet: `self.start_yr` is unset and creating the file raises, after `copy_nc` and `createDimension` (lines 206-207) have already left a file with no `Title` and no `time` variable | `start_yr = water_year - 1` in both branches, so the file counts hours from 2019-10-01 | not executed | Grm.NewCollectionAsWritten, Grm.NovemberFlightStartsCollection | WaterYear.StartYearOf, Grm.Grm.AddToCollection |
| basin_setup/grm.py:633-643 | processed is `len(images) - skips`, and the warning fires when `skips == len(images)`, but the loop runs once per distinct date | two images with the same date, neither of which can be warped: one run, one skip; the summary says 1/2 processed and gives no warning | count against the runs made: processed = runs - skips, warned when every run was skipped | not executed | Batch.SummaryAsWritten, Batch.DuplicateDateOvercounts | Batch.SummaryOf, Batch.Summarize |
