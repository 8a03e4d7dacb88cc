# make_event catalog loop, modelled in Dafny

`make_event.py` reads an earthquake catalog line by line. For each origin that
is not a near-duplicate of the line before it and lies in the area of interest,
it does the following:

- It creates an event directory named `eYYYYMMDD.hhmmss` after the origin time.
- It walks every network × station × channel combination. For each one it reads
  the continuous day volume of the origin's day, and also the next day's
  volume when the cut window crosses midnight. It cuts the window from 30 s
  before to 180 s after the origin and writes the trimmed segment into the
  directory.
- It removes the directory again if nothing was written. Otherwise it appends
  the origin to one shared QuakeML event, appends that same event to a shared
  catalog, and writes the whole catalog as `quakeml.xml` into the directory.

The project models this loop. It has five modules:

- `Calendar` (`calendar.dfy`): the calendar fields of an integer epoch time
  (year, month, day, hour, minute, second, day of year) in the proleptic
  Gregorian calendar without leap seconds. It covers what the script reads from
  `UTCDateTime`, with the next-day and round-trip facts the loop relies on.
- `Naming` (`naming.dfy`): Python's `{}`, `{:4}` and `{:02}` integer formatting.
  It builds the event name, the segment file name and the day-volume path, and
  reads the event name back with a strict reader: the year must be blanks
  followed by digits without a leading zero, every other field two digits.
- `Extraction` (`extraction.dfy`): the loop as functions over a run state:
  - the duplicate test, the cut window and the midnight flag;
  - the per-event names;
  - the walk over the triples with its skip rules;
  - the step of one catalog line and the run over all lines.
- `ExtractionFacts` (`extraction_facts.dfy`): what the loop promises, proved
  about those functions.
- `Pipeline` (`pipeline.dfy`): the loop as the script runs it. It has an
  `Extractor` object whose fields change step by step, `Event` and `Catalog`
  objects that are updated in place, and `while` loops for the three nested
  `for` loops. Each method is proved to produce the state that the functions of
  `Extraction` describe.

The outside world enters as inputs:

- an `Archive`: the set of day-volume files that exist, and the
  (window, triple) pairs whose slice raises `IndexError` or whose segment
  write raises;
- the existing directories;
- for each catalog line, the outcome of the area-of-interest polygon test.

The model records:

- the directories and the files in each;
- the order of directory creations and of volume reads;
- the QuakeML files written, each as the sequence of origin lists the catalog
  held when it was written;
- whether the run stopped.

Five behaviours of the code that are easy to miss:

- The previous origin time starts at epoch 0. So a first origin at most
  180 s after 1970-01-01T00:00:00 is dropped as a duplicate, and so is any
  first origin before 1970.
- The year in names is space-padded to width 4 (`{0:4}`).
- A slice that raises `IndexError` ends the run. The handler formats
  `stations[nsta]`, a name that is never defined, so it raises `NameError`.
  The model stops the run there. The event directory keeps the segments
  written so far, and no QuakeML file is written.
- Each line is compared with the line directly before it, whether or not
  that line was kept: a line is kept exactly when the line directly before
  it is more than 180 s earlier (and it lies in the region).
- A segment file name carries the station and channel but not the network.
  Two triples that differ only in network write the same file, and the later
  write replaces the earlier one.

## Model

| member | source | states |
|---|---|---|
| `Calendar.FieldsOf` | make_event.py:91-93 | the fields `UTCDateTime` reports lie in their ranges: month 1-12, day 1-31, day of year 1-366, hour 0-23, minute and second 0-59 |
| `Calendar.DateOfDayFacts` | make_event.py:101-107 | the date of a day number is a real calendar date: its year holds that day, the day fits its month, and the day of year equals the days before the month plus the day of month |
| `Calendar.FieldsRoundTrip` | make_event.py:91-93 | the calendar fields determine the epoch time they were computed from |
| `Calendar.NextDate` | make_event.py:120 | the day after a date is the next day of the same year, or January 1st of the next year after the year's last day, and its day of month differs |
| `Calendar.FieldsOneDayLater` | make_event.py:120-128 | the fields of `orig_time + 86400` name the next day of the year, or day 1 of the next year |
| `Naming.ReadPadded` | make_event.py:91-93 | `FormatWidth`, `FormatZeroPad`: a number formatted with `{:w}` is blanks followed by its digits without a leading zero, and one formatted with `{:0w}` is digits only; each reads back as itself and takes exactly w characters when the number has at most w digits |
| `Naming.PaddedField` | make_event.py:91-93 | each field of the event name below 10^w takes exactly its width w, blank-filled for `{:w}` and zero-filled for `{:0w}`, and reads back |
| `Naming.EventNameOfRoundTrip` | make_event.py:91-93 | `EventNameOf`: for years 0 to 9999 the event name is 16 characters long, starts with `e` and has `.` at position 9; the year is blanks followed by digits without a leading zero, the other ten field characters are digits, and the six fields read back as year, month, day, hour, minute and second |
| `Naming.EventNameSample` | make_event.py:91-93 | 2017-03-05T01:02:03 is named `e20170305.010203` |
| `Naming.EventNameSampleBlankYear` | make_event.py:91-93 | the same moment in year 999 is named `e 9990305.010203`: the year is blank-padded |
| `Naming.YearTextSamples` | make_event.py:92 | `{0:4}` writes the year 2017 as `2017` and the year 999 as ` 999` |
| `Naming.ZeroPadSample` | make_event.py:92-93 | a one-digit month, day, hour, minute or second is written with a leading zero |
| `Naming.ParseEventNameRejects` | make_event.py:91-93 | a name with blank-padded two-digit fields, or with a zero-padded year, is not an event name |
| `Naming.EventNameInjective` | make_event.py:91-96 | two origins in years 0 to 9999 get the same event directory only when they are the same second |
| `Naming.SegmentStampIsEventStamp` | make_event.py:149-155 | `SegmentFile`: the timestamp in a segment file name is the event name without its leading `e` |
| `Extraction.CrossMidnightIff` | make_event.py:77-80 | `CrossMidnight`: the midnight flag is set exactly when the window end `orig_time + 180` falls on the next day, that is when the origin lies in the last 180 s of its day |
| `Extraction.PreviousDayNeverFlagged` | make_event.py:63-80 | a window that starts on the previous day does not set the flag |
| `Extraction.FirstDayVolumeIsOriginDay` | make_event.py:101-107 | `VolumeFile`: the first volume read is `{root}{year}/{net}/{sta}/{cha}.D/{net}.{sta}..{cha}.D.{year}.{julday}.mseed` for the origin's year and unpadded day of year |
| `Extraction.NextDayVolumeIsFollowingDay` | make_event.py:119-128 | the second volume is the same path for the following day of the year, or for day 1 of the next year after the year's last day |
| `Extraction.SegmentNamedAfterEvent` | make_event.py:149-155 | a segment is `{event dir}/{sta}.{cha}.{timestamp}.mseed` inside its event's directory, with the event name's timestamp |
| `Naming.DayRefReadsBack` | make_event.py:101-107 | the year and day of year in a day volume's name are plain digits that read back as the date's year and day of year, with no leading zero |
| `ExtractionFacts.TriplesCount` | make_event.py:97-99 | the walk makes networks × stations × channels attempts |
| `ExtractionFacts.TripleAt` | make_event.py:97-99 | combination (n, s, c) is attempt number n·S·C + s·C + c: networks outermost, then stations, then channels |
| `ExtractionFacts.ScriptAttempts` | make_event.py:31-34 | the configured 1 network, 10 stations and 6 channels make 60 attempts per event |
| `ExtractionFacts.SegmentsWritten` | make_event.py:100-155 | a walk that does not end the run writes exactly the segment files of the triples whose first-day volume exists, one file per (station, channel), since the file name leaves out the network; whether the next-day volume exists plays no part |
| `ExtractionFacts.OneDayReadsOnly` | make_event.py:101-128 | without the midnight flag the walk reads exactly the first-day volume of each triple, in walk order |
| `ExtractionFacts.TwoDayReads` | make_event.py:117-135 | with the midnight flag the next-day volume is read right after the first-day volume, for exactly the triples that were not skipped |
| `ExtractionFacts.AttemptTripleOutcome` | make_event.py:100-155 | `AttemptTriple`: a triple whose first-day volume is missing is skipped after that one read, whatever the next-day volume; otherwise the next-day volume is read too under the midnight flag, the run ends exactly when the slice fails, and else the segment is written |
| `ExtractionFacts.CrashIff` | make_event.py:140-146 | the walk ends the run exactly when some triple with an existing first-day volume hits a slice or segment-write error |
| `ExtractionFacts.AttemptAllAfterCrash` | make_event.py:142-146 | once the run has ended, no later triple reads or writes anything |
| `ExtractionFacts.RunAfterHalt` | make_event.py:142-146 | once the run has ended, no later catalog line is processed |
| `ExtractionFacts.FirstLineAgainstEpoch` | make_event.py:43 | the first line is a duplicate exactly when its origin is at most 180 s after epoch 0 |
| `ExtractionFacts.StepFollowsReference` | make_event.py:59-96 | `StepLine`: one line is counted, becomes the previous origin time whether kept or not, and creates its event directory exactly when it is not a duplicate and lies in the region |
| `ExtractionFacts.RunFollowsReference` | make_event.py:58-96 | `RunLines`: after any lines that do not end the run, every line was counted, the previous origin time is the last line's time, and directories were created for exactly the lines that pass both filters, in catalog order |
| `ExtractionFacts.DuplicatesIgnoreRegion` | make_event.py:71-88 | catalogs with the same origin times have the same duplicates and the same final duplicate state, whatever the region test says |
| `ExtractionFacts.DuplicatesChainOnLastSeen` | make_event.py:71-74 | origins at 200, 350 and 500 s: only the first is kept, though the third is 300 s after it |
| `ExtractionFacts.DuplicateOnlyAdvances` | make_event.py:71-74 | `IsDuplicate`: a line at most 180 s after the previous origin time only counts the line and becomes the previous origin time; no directory, read or QuakeML file |
| `ExtractionFacts.OutOfRegionOnlyAdvances` | make_event.py:88-172 | a line outside the region only counts the line and advances the previous origin time |
| `ExtractionFacts.EventDirectoryOutcome` | make_event.py:90-169 | after an accepted line the event directory exists exactly when a segment was written. It then holds the expected segments plus `quakeml.xml`; the origin has joined the event and the event the catalog; and that QuakeML file, and no other, is written with the whole catalog, as many copies of the grown origin list as the catalog has entries. Otherwise the event, the catalog and the QuakeML files do not change. Other directories are untouched |
| `ExtractionFacts.ConcludeOutcome` | make_event.py:158-169 | `Conclude`: the same outcome, including the content of the QuakeML file written, for any walk that did not end the run |
| `ExtractionFacts.ConcludeBookkeeping` | make_event.py:94-146 | finishing an event records its directory as created and stops the run exactly when the walk hit a slice error; the directory then keeps the segments written so far, possibly none, no QuakeML file is written, and the event and catalog are unchanged |
| `ExtractionFacts.ConcludeKeepsCatalogConsistent` | make_event.py:163-169 | finishing an event keeps the accumulation: one catalog entry per origin, and every QuakeML file holds k copies of the first k origins, for some k of at least 1 |
| `ExtractionFacts.StepKeepsCatalogConsistent` | make_event.py:163-169 | one line keeps that accumulation |
| `ExtractionFacts.RunKeepsCatalogConsistent` | make_event.py:163-169 | any number of lines keeps it |
| `ExtractionFacts.StepStoresOrigin` | make_event.py:160-169 | one line adds its origin to the event and the event to the catalog exactly when it is not a duplicate, lies in the region and its directory receives a segment |
| `ExtractionFacts.RunStoresOrigins` | make_event.py:58-172 | over a run that does not end early, the event gains exactly the origins of the lines that pass both filters and receive a segment, in catalog order, and the catalog one entry for each |
| `Pipeline.Event.constructor` | make_event.py:54 | the shared event starts with no origins |
| `Pipeline.Catalog.constructor` | make_event.py:52 | the catalog starts with no events |
| `Pipeline.Event.AppendOrigin` | make_event.py:166 | the event's origins grow by the new origin |
| `Pipeline.Catalog.Append` | make_event.py:167 | the catalog grows by a reference to the event |
| `Pipeline.Extractor.constructor` | make_event.py:43-58 | the run starts at line 0 with previous origin time epoch 0, an empty event and catalog, and nothing read or written |
| `Pipeline.Extractor.AttemptOne` | make_event.py:100-155 | one triple changes the event directory and the read log as `AttemptTriple` says, and reports a slice error |
| `Pipeline.Extractor.ChannelLoop` | make_event.py:99-155 | the channel loop does what the walk over one station's triples does |
| `Pipeline.Extractor.StationLoop` | make_event.py:98-155 | the station loop does what the walk over one network's triples does |
| `Pipeline.Extractor.ExtractSegments` | make_event.py:97-155 | the three nested loops do what the walk over all triples does, starting from the empty directory |
| `Pipeline.Extractor.FinishEvent` | make_event.py:158-169 | halt, remove the empty directory, or append the origin and the event and write the catalog, as `Conclude` says; the catalog still holds only the shared event |
| `Pipeline.Extractor.MaterializeEvent` | make_event.py:94-169 | recreating the directory, walking and finishing yield the state `Conclude` gives for the walk |
| `Pipeline.Extractor.EventAt` | make_event.py:63-120 | `CutWindow`: the window runs from 30 s before to 180 s after the origin; the midnight flag is set exactly in the last 180 s of the day; the name is the event name and the timestamp is the name without its `e`; the first day is the origin's year and day of year, and the next day the following day of the year or day 1 of the next year |
| `Pipeline.Extractor.ProcessLine` | make_event.py:59-172 | one pass of the loop yields the state `StepLine` gives |
| `Pipeline.Extractor.Run` | make_event.py:57-172 | the loop over all lines yields the state `RunLines` gives, stopping at the first slice error |

## Left out

- Origin times are whole epoch seconds. The sub-second part of the float time
  is not modelled, and neither is the `float()` parsing of the fixed columns.
  Latitude, longitude and depth are carried as `real` values unchanged.
- The area-of-interest test (`matplotlib` `Path.contains_point`) is a boolean
  input per line. It is a foreign floating-point routine, and its vertex list
  mixes longitudes and latitudes.
- ObsPy `read`, `merge`, `slice` and `write`, and QuakeML serialisation, are
  modelled by their outcomes only:
  - a read succeeds exactly when the path is in the archive;
  - a slice raises exactly for the (window, triple) pairs the archive lists;
  - a segment write that raises is one of the archive's failing pairs and
    ends the run like a failing slice; otherwise it succeeds;
  - a QuakeML file records the origins each catalog entry holds.
- `os.path.exists`, `shutil.rmtree`, `os.mkdir` and `os.listdir` act on a map
  from directory path to the set of files in it. Removing a directory that
  already existed and creating it again is one step that leaves it empty.
  Filesystem errors are not modelled.
- `UTCDateTime.now()` creation-info timestamps, the agency and author fields,
  the progress `print` and the verbose messages are not modelled. They are
  clock and console output only.
- `Pipeline.Extractor.EventAt` computes `newdate = orig_time + 86400` once per
  event rather than once per triple. The value is the same for every triple.
- The catalog file is a sequence of parsed lines; opening and closing it is
  not modelled.
