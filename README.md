# Thermocouple log cleaning pipeline, modelled in Dafny

The script `__main__.py` reads thermocouple CSV logs from a folder and cleans
and reshapes them into a tidy temperature table. Each log has six fields per
row: date, time, three probe-depth readings and an ambient-air reading. The
script then plots the table. This project models the cleaning-and-reshape
pipeline between reading and plotting, and proves properties of it:

- **File selection and name decoding** (`FileNames`): only names ending in
  `.CSV` are processed. The stem is the part before the first `.`. It must
  split on `L` into exactly two parts. The side is the second character of
  the first part, and the location is the whole second part. Python's
  `str.split` is modelled exactly and proved to round-trip with joining.
- **Row sanitising** (`Sanitizer`): the three depth columns are coerced to
  numbers, and then five row filters run in the script's order: positive,
  not `-OL`, not missing, depth-ordered, not missing. The sanitiser is
  proved to be the order-preserving filter that keeps exactly the rows with
  three numeric readings where `temp1 > temp2 > temp3 > 0`. The sentinel
  filter and both missing-value filters are proved to remove nothing.
- **Reshaping** (`Reshaper`): the melt of N rows into 3N observations tagged
  T, M and B, each stamped with side and location. The melt is proved to be
  inverted by a pivot. The per-file air table is built only when some
  surviving row has a numeric ambient value.
- **Aggregation** (`Aggregator`): the earliest time of every
  (Side, Location, Depth) group, and the elapsed time `dTime` of every
  observation. `dTime` is proved never negative and exactly 0 somewhere in
  every group. Within a group it is a shift of the time, and no other
  origin gives the same property.
- **The run** (`Pipeline`): the per-file loop that appends to the two
  accumulating lists is a method, `Run`. It is proved equal to the
  specification function `Process`. Lemmas about `Process` cover the ignored
  non-`.CSV` files, the fatal errors, the exact table lengths, where every
  row of both final tables comes from, that every surviving reading reaches
  them, and an example file `T1L2.CSV`.

Inputs the script gets from the outside are parameters here. The directory
listing and the CSV reader become a sequence of `InputFile(name, rows)`, in
listing order. A field as the reader delivers it is a `Cell`: `Number(real)`,
`Text(string)` (for instance the over-limit marker `-OL`) or `Missing`. The
time of day is a `nat` of seconds since midnight.

Four behaviours of the code are easy to miss, and the model keeps them:

- With no `.CSV` file at all, `pd.concat` at line 66 raises on the empty
  list. The model returns `Err(NoTablesToConcatenate)` instead of empty tables.
- When `.CSV` files exist and all decode but no row of any of them survives
  sanitising, the combined depth table is empty. The row-wise `apply` at
  line 69 then returns the empty frame itself instead of one column, and
  assigning it to `dTime` fails; the `.dt` accessor at line 72 would fail on
  it as well. The model returns `Err(ElapsedOfEmptyTable)`.
- The test for ambient data (line 57) looks at the rows that survived
  sanitising, not at all rows of the file. When it passes, the air table
  copies every surviving row with its raw ambient cell, not only the rows
  with a numeric ambient value.
- Decoding also fails when the part before `L` has fewer than two
  characters (`side[1]`, an IndexError), not only when the stem does not
  hold exactly one `L`.

## Model

| member | source | states |
|---|---|---|
| FileNames.Split | __main__.py:20 | Splitting at a separator gives one more part than there are separators, and no part contains the separator |
| FileNames.JoinSplit | __main__.py:20 | Joining the parts of a split with the separator gives back the original string |
| FileNames.SplitJoin | __main__.py:20 | Splitting a join of separator-free parts gives back exactly those parts |
| FileNames.StemIsPrefixBeforeFirstDot | __main__.py:20 | `filename.split(".")[0]` is the longest prefix of the name without a dot: a prefix, dot-free, followed by a dot unless it is the whole name |
| FileNames.Decode | __main__.py:20-21 | A successful decoding gives a one-character side and a location without `L` |
| FileNames.DecodeOneSeparator | __main__.py:20-21 | For a stem `before + "L" + after` with no other `L`, decoding gives side `before[1]` and location `after` when `before` has two characters or more, and otherwise the IndexError |
| FileNames.DecodeNeedsOneSeparator | __main__.py:20 | A stem with no `L` or with more than one fails with the unpacking error |
| FileNames.DecodeOkShape | __main__.py:20-21 | Every successful decoding comes from a stem with exactly one `L`, whose prefix has the side as its second character and whose suffix is the location |
| FileNames.DecodeExample | __main__.py:18-21 | `T1L2.CSV` is a data file and decodes to side "1" and location "2" |
| FileNames.IsDataFile | __main__.py:18 | No contract; a name is processed exactly when it ends in `.CSV`, characterised by `Pipeline.NonDataFilesIgnored` and `FileNames.DecodeExample` |
| FileNames.Stem | __main__.py:20 | No contract; `filename.split(".")[0]`, characterised by `FileNames.StemIsPrefixBeforeFirstDot` |
| Sanitizer.ToNumeric | __main__.py:26 | No contract; `to_numeric(errors="coerce")` on one field keeps a number and turns anything else into a missing value, characterised by `Sanitizer.FilterCoerced` |
| Sanitizer.Coerce | __main__.py:26 | No contract; coerces the three depth columns of a row and keeps the others, characterised by `Sanitizer.FilterCoerced` |
| Sanitizer.Sanitize | __main__.py:26-41 | No contract; the coercion and the five row filters in the script's order, characterised by `Sanitizer.SanitizeIsFilter`, `SanitizeSound`, `SanitizeComplete` and `SanitizeKeepsOrder` |
| Sanitizer.FilterCoerced | __main__.py:26 | Coercion leaves sanitised rows unchanged and does not change which rows are sanitised |
| Sanitizer.LaterFiltersRemoveNothing | __main__.py:30-41 | After the positivity filter, the `-OL` filter and both `dropna` filters keep every row |
| Sanitizer.SanitizeIsFilter | __main__.py:26-41 | The five stages together equal one order-preserving filter by "three numeric readings with temp1 > temp2 > temp3 > 0" on the uncoerced rows |
| Sanitizer.SanitizeSound | __main__.py:26-41 | Every surviving row is an input row with three numeric readings and temp1 > temp2 > temp3 > 0 |
| Sanitizer.SanitizeComplete | __main__.py:26-41 | Every input row with three numeric, positive, strictly decreasing readings survives |
| Sanitizer.SanitizeKeepsOrder | __main__.py:30-41 | The surviving rows embed into the input at strictly increasing positions |
| Sanitizer.SanitizeDropsInvalidRow | __main__.py:30-36 | A row that is not sanitised, because a value is missing, marked `-OL`, not positive or out of depth order, contributes nothing |
| Sanitizer.SanitizeExamples | __main__.py:30-36 | The row 150, 100, 50 is kept; the row 100, 150, 50 is dropped; a row whose bottom reading is `-OL` is dropped |
| Reshaper.Melt | __main__.py:48-53 | Melting N rows gives exactly 3N observations, all stamped with the file's side and location |
| Reshaper.MeltLayout | __main__.py:48-53 | Observation N*b + i holds row i's date, time and the reading of depth b: temp1 tagged T for b = 0, temp2 tagged M for b = 1, temp3 tagged B for b = 2 |
| Reshaper.MeltProvenance | __main__.py:48-53 | Every melted observation has the file's side and location and the date, time and reading at its depth of one of the input rows |
| Reshaper.UnmeltMelt | __main__.py:48-50 | Pivoting the melted table back gives every row's date, time and three readings in input order, so the melt loses nothing |
| Reshaper.MeltSanitized | __main__.py:36-50 | For sanitised rows every melted temperature is numeric and positive, and in each pivoted row T > M > B |
| Reshaper.AnyNumericAmbient | __main__.py:57 | True exactly when some row's ambient cell coerces to a number |
| Reshaper.AirTable | __main__.py:57-62 | An air table exists exactly when some surviving row has a numeric ambient value; it then has one row per surviving row with the location, date, time and raw ambient cell, and no side |
| Aggregator.GroupMin | __main__.py:67-68 | The group minimum is the time of some observation of the group, and no observation of the group is earlier |
| Aggregator.Elapsed | __main__.py:69-72 | No contract; the seconds from the group's earliest time, characterised by `Aggregator.WithElapsed`, `ElapsedZeroInEveryGroup`, `ElapsedIsShift` and `ElapsedOriginIsUnique` |
| Aggregator.WithElapsed | __main__.py:69-73 | Adding dTime keeps every row's side, location, depth, time and temperature in order, and no dTime is negative |
| Aggregator.ElapsedZeroInEveryGroup | __main__.py:67-72 | Every (Side, Location, Depth) group has an observation with dTime exactly 0 |
| Aggregator.ElapsedIsShift | __main__.py:69-72 | Within a group, the difference of two dTimes equals the difference of their times |
| Aggregator.ElapsedOriginIsUnique | __main__.py:67-72 | Any origin that is a time of the group and precedes none of the group's times gives the same dTime as the group minimum |
| Pipeline.Step | __main__.py:18-62 | No contract; one loop iteration over one file, characterised by `Pipeline.StepCounts` and the `Collect` lemmas |
| Pipeline.Collect | __main__.py:17-62 | No contract; the two lists after the loop, characterised by `Pipeline.CollectOkIff`, `CollectStopsAtError`, `CollectCounts`, `CollectObservations`, `CollectDepthComplete`, `CollectAirObservations` and `CollectAirComplete` |
| Pipeline.Aggregate | __main__.py:66-81 | No contract; the concatenations (failing on an empty list), dTime (failing on a table without rows) and the date drop, characterised by `Pipeline.EmptyDirectoryFails`, `ProcessOutcome`, `ProcessDepthRows`, `ProcessDepthComplete`, `ProcessAirRows` and `ProcessAirComplete` |
| Pipeline.Process | __main__.py:13-81 | No contract; the outcome of a whole run, the specification `Pipeline.Run` is proved equal to |
| Pipeline.Run | __main__.py:13-81 | The per-file loop appending to the two lists, followed by the aggregation, returns exactly `Process(files)` |
| Pipeline.CollectStopsAtError | __main__.py:17-21 | Once a data file name fails to decode, the run fails with that error whatever files follow |
| Pipeline.NonDataFilesIgnored | __main__.py:17-18 | The run over all files equals the run over the files whose names end in `.CSV` |
| Pipeline.CollectOkIff | __main__.py:17-21 | The loop completes exactly when every `.CSV` file name decodes |
| Pipeline.CollectCounts | __main__.py:17-62 | After the loop there is one depth table per `.CSV` file; the depth and air lists hold the expected numbers of rows |
| Pipeline.CollectObservations | __main__.py:17-54 | Every accumulated depth observation has a positive numeric temperature, the side and location decoded from a `.CSV` file of the input, and the date, time and reading at its depth of a surviving row of that file |
| Pipeline.CollectDepthComplete | __main__.py:17-54 | Every surviving row of every `.CSV` file gives, at each of the three depths, an accumulated observation with the file's side and location and the row's date, time and reading at that depth |
| Pipeline.ProcessOutcome | __main__.py:17-81 | A run succeeds exactly when every `.CSV` name decodes, there is at least one, and some row of them survives sanitising; the depth table then has 3 rows per surviving row of every `.CSV` file, and the air table has one row per surviving row of every such file with numeric ambient data |
| Pipeline.ProcessDepthRows | __main__.py:66-73 | Every final depth row has a positive temperature, dTime >= 0, the side and location decoded from a `.CSV` file and the time and reading at its depth of a surviving row of that file, and a row of its group with dTime 0 |
| Pipeline.ProcessDepthComplete | __main__.py:66-73 | Every surviving row of every `.CSV` file gives, at each depth, a final depth row with the file's side and location, that depth, and the row's time and reading at that depth |
| Pipeline.StepCounts | __main__.py:18-62 | One iteration over a data file adds one depth table with three rows per surviving row, and an air table with one row per surviving row exactly when one of them has a numeric ambient value |
| Pipeline.CollectAirObservations | __main__.py:57-62 | Every accumulated air observation holds the location of a `.CSV` file that has a numeric ambient value among its surviving rows, and the date, time and raw ambient cell of one of those rows |
| Pipeline.CollectAirComplete | __main__.py:57-62 | Every surviving row of a `.CSV` file with a numeric ambient value among its surviving rows is accumulated as an air observation of the file's location |
| Pipeline.ProcessAirRows | __main__.py:57-81 | Every final air row has the location of a `.CSV` file with a numeric ambient value among its surviving rows, and the time and raw ambient cell of one of those rows |
| Pipeline.ProcessAirComplete | __main__.py:57-81 | Every surviving row of a `.CSV` file with a numeric ambient value among its surviving rows appears in the final air table with the file's location, its time and its raw ambient cell |
| Pipeline.NoAmbientNoAirRows | __main__.py:57-79 | When no surviving row of any `.CSV` file has a numeric ambient value, the air table is empty |
| Pipeline.EmptyDirectoryFails | __main__.py:66 | With no file at all the run fails at the concatenation |
| Pipeline.ProcessExample | __main__.py:17-81 | `T1L2.CSV` with one row at 08:00:00 reading 150, 100, 50 and ambient 70 gives the T, M and B observations of side "1", location "2" with dTime 0, and one air row of location "2" |
| Pipeline.ExampleProcess | __main__.py:17-81 | The same result for any `.CSV` name that decodes to side "1" and location "2" |

## Left out

- Directory listing and CSV reading (lines 17, 24-25) are file-system I/O. The files are a given sequence in listing order, each with its rows already split into fields.
- The parsing inside numeric coercion (lines 26, 57) is not modelled. The reader's classification of a field as number, text or empty is taken as given. Coercion keeps numbers and turns everything else into a missing value.
- Time parsing (lines 69-72): times are seconds since midnight and the date is ignored, as in the script, so logs that cross midnight are out of scope. The script takes the group minimum over the time *strings*. This equals the earliest time only for zero-padded `HH:MM:SS` text, which the model assumes.
- Temperatures are exact reals. Floating-point rounding is not modelled.
- `reset_index` calls (lines 33, 37, 41) only renumber rows. A sequence has no separate index, so they have no counterpart.
- Plotting (lines 92-166), the cycling colour palette (line 10) and the plotting libraries are external collaborators and are not modelled.
- The commented-out 60-170 range check (lines 42-45) is disabled code and is not modelled.
