# MeteoIO core, modelled in Dafny

This project models the parts of MeteoIO, the meteorological data
pre-processing library, that carry its ingestion and normalisation logic
and the editing, generator, resampling and filter stacks that run over
the time series it produces. Each module follows one source file or
class:

- `CsvSpecs`, `CsvParams`, `CsvRead`: the CSV dialect engine of
  `CsvIO.cc`/`CsvIO.h`. It covers delimiters and skip fields, the
  column-name heuristics, metadata read from special headers and from
  file names, the unit table, and the compilation of date/time spec
  strings into scanf formats and ISO slot orders. It also covers the
  `CsvDateTime` fallback-year auto-wrap state, date parsing, and the
  row loop of `readCSVFile` (field-count check, ID filter, date window
  in either order, nodata handling, unit scaling).
- `Restrictions`: the `RestrictionsIdx` cursor over time-restriction
  periods (`MeteoProcessor.h`).
- `EditingBlock`, `EditingAlgorithms`, `EditingMerge`,
  `EditingMetadata`: the input data editing blocks
  (`DataEditingAlgorithms.cc/.h`). They cover station selection, SWAP,
  MOVE, EXCLUDE, KEEP, COPY, the argument checks of CREATE, MERGE,
  AUTOMERGE with its swap-with-back/pop loop, and METADATA with its
  migration of restricted timesteps to a new station.
- `ICsv`: the iCSV header reader (`iCSVHelper.cc/.h`). It covers the
  METADATA/FIELDS/DATA line state machine, key/value population, the
  format validity check, the "roughly equal" tests and the `+=` merges
  of both sections, geometry parsing and the `iCSVFile` getters.
- `Meteo1D`, `DataGenerator`, `FilterRate`: the resampling stack and
  the position classification of `resampleData`, the data generators'
  key parsing and try-until-success loops, and the RATE filter's
  last-good/next-good scan.
- `Acdd`, `Grib`, `OshdFiles`, `OshdStations`, `Codes`, `Bufr`, `Json`:
  the table and bookkeeping cores of the format plugins. These are the
  ACDD attribute list, the GRIB parameter table and the GRIBFile
  validity checks, the COSMO file index and station acronyms of
  OshdIO, the ecCodes helpers of libcodes, the BUFR station
  bookkeeping, and the dotted-path queries of JsonWrapper.
- `Common` and `Meteo`: shared vocabulary. `Result` stands for the
  library's exceptions, `Nodata` is `IOUtils::nodata` (-999), `None` is
  `npos`, and a `MeteoData` record is a timestamp, a station and a map
  from parameter name to value.

Objects whose fields the source updates in place are classes, for
example `RestrictionsIdx`, `CsvDateTime`, `CsvParameters`, `ACDD`,
`GRIBTable`, `iCSVFile`, `ResamplingStack` and `BUFRFile`. Their
methods are proved against specification functions. Loops are
methods with invariants. Pure logic is functions. Lemmas relate the
operations to independent descriptions of what the source promises.

Timestamps have the type their format calls for: `real` for BUFR
subsets and GRIB messages (`Bufr.Subset.date`, `Grib.Message.date`), a
`DateValue` for CSV records, compared through the `stamp` hook that
maps it to a `real`, `int` for iCSV and for the meteo records of the
1D series, the generators and the data editing (an `Option<int>`
there, since a record may lack a date), and a `nat` for the OSHD file
index. The `Date` class, the
decimal-epoch conversions, `sscanf`, `std::regex` and the `IOUtils`
conversions are parameters or abstract matchers with stated contracts.
ecCodes, picojson parsing, matio, NetCDF and libcurl are replaced by
the values they would return.

## Model

| member | source | states |
|---|---|---|
| `Restrictions.RestrictionsIdx.Empty` | Source/meteoio/meteoio/MeteoProcessor.h:113 | a default-constructed cursor holds no period and is invalid |
| `Restrictions.RestrictionsIdx.constructor` | Source/meteoio/meteoio/MeteoProcessor.h:101-114 | the cursor over computed periods starts on the first one and is valid exactly when there is one |
| `Restrictions.RestrictionsIdx.IsValid` | Source/meteoio/meteoio/MeteoProcessor.h:116 | valid exactly when the cursor index is not npos |
| `Restrictions.RestrictionsIdx.GetStart` | Source/meteoio/meteoio/MeteoProcessor.h:117 | the start index of the current (first remaining) period |
| `Restrictions.RestrictionsIdx.GetEnd` | Source/meteoio/meteoio/MeteoProcessor.h:118 | the end index of the current (first remaining) period |
| `Restrictions.RestrictionsIdx.Next` | Source/meteoio/meteoio/MeteoProcessor.h:119 | drops exactly the current period from the remaining ones; start/end vectors unchanged |
| `Restrictions.InvalidMeansDone` | Source/meteoio/meteoio/MeteoProcessor.h:106-109 | invalid exactly when no period remains; a valid cursor's start/end are the next period's |
| `FilterRate.FindNextPoint` | Source/meteoio/meteoio/meteoFilters/FilterRate.cc:34-41 | the first index at or after start holding a value (everything between is nodata), or npos when all remaining points are nodata |
| `FilterRate.GetRate` | Source/meteoio/meteoio/meteoFilters/FilterRate.cc:43-58 | nodata when the current value is missing, otherwise the rate towards the compared point |
| `FilterRate.FilterOut` | Source/meteoio/meteoio/meteoFilters/FilterRate.cc:60-102 | per method: nodata never filtered; LEFT/RIGHT test one rate; RIGHT without next point keeps; AND needs both, OR either; without next point the combined modes use the left test |
| `FilterRate.Process` | Source/meteoio/meteoio/meteoFilters/FilterRate.cc:104-131 | output equals input except rejected points set to nodata; unchanged when no valid point; the first valid point is never touched; a point is rejected exactly when the test against the last kept point (and the next valid one) fails |
| `FilterRate.ParseArgs` | Source/meteoio/meteoio/meteoFilters/FilterRate.cc:133-159 | MAX required, MIN > MAX rejected, MIN defaults to -MAX, METHOD among four names (default LEFT), the last occurrence of a key wins |
| `FilterRate.ParseMethod` | Source/meteoio/meteoio/meteoFilters/FilterRate.cc:145-152 | the upper-cased METHOD value selects LEFT, RIGHT, LEFT_AND_RIGHT or LEFT_OR_RIGHT; any other name is an invalid argument |
| `FilterRate.MethodOf` | Source/meteoio/meteoio/meteoFilters/FilterRate.cc:145-152 | the upper-cased METHOD value LEFT, RIGHT or LEFT_AND_RIGHT gives that method, each exactly for its name |
| `FilterRate.LastArg` | Source/meteoio/meteoio/meteoFilters/FilterRate.cc:138-154 | a value found for a key is the value of an argument with that key |
| `FilterRate.LastArgIsLast` | Source/meteoio/meteoio/meteoFilters/FilterRate.cc:138-154 | a key's value is absent exactly when the key never occurs, otherwise it is the value of its last occurrence (later ones overwrite earlier ones) |
| `Acdd.ACDD.constructor` | Source/meteoio/meteoio/plugins/libacdd.h:74 | stores the enable flag; the attribute list is exactly the defaultInit list (given clock, login, host and version) |
| `Acdd.DefaultAttributes` | Source/meteoio/meteoio/plugins/libacdd.cc:76-110 | the 30 default attributes with their values and configuration keys, in registration order |
| `Acdd.ACDD.SetEnabled` | Source/meteoio/meteoio/plugins/libacdd.h:80 | stores the flag |
| `Acdd.ACDD.IsEnabled` | Source/meteoio/meteoio/plugins/libacdd.h:90 | returns the last stored flag |
| `Acdd.ACDD.GetNrAttributes` | Source/meteoio/meteoio/plugins/libacdd.h:92 | 0 when disabled, else the number of names |
| `Acdd.ACDD.Find` | Source/meteoio/meteoio/plugins/libacdd.cc:179-186 | the first index whose name matches (no earlier match), npos exactly when the name is absent |
| `Acdd.FindName` | Source/meteoio/meteoio/plugins/libacdd.cc:179-186 | the same first-match search as a function over a list of names |
| `Acdd.ACDD.GetAttribute` | Source/meteoio/meteoio/plugins/libacdd.cc:163-172 | name and value at the index; two empty strings out of range |
| `Acdd.ACDD.AddAttribute` | Source/meteoio/meteoio/plugins/libacdd.cc:121-154 | empty name is InvalidFormat and changes nothing; otherwise the list becomes `Added(...)` (MERGE overwrite only with non-empty value/key, APPEND joins with ", ", else push a new triple); the three vectors keep equal length |
| `Acdd.ACDD.AddAttributeDefault` | Source/meteoio/meteoio/plugins/libacdd.h:83 | the default arguments: empty configuration key and MERGE mode |
| `Acdd.AddedKeepsNames` | Source/meteoio/meteoio/plugins/libacdd.cc:126-150 | adding never renames an existing attribute, grows the list by at most one, and the name is then present |
| `Acdd.ReplaceShadowed` | Source/meteoio/meteoio/plugins/libacdd.cc:145-150 | REPLACE on an existing name appends a duplicate that lookups never reach |
| `Acdd.MergeEmptyIsNoOp` | Source/meteoio/meteoio/plugins/libacdd.cc:126-134 | MERGE with empty value and key on a known name changes nothing |
| `DataGenerator.GetParameters` | Source/meteoio/meteoio/DataGenerator.cc:163-182 | InvalidFormat exactly when some key has a ':' not followed by ':' and one more character; otherwise the set of texts before each key's first ':' |
| `DataGenerator.ParamsOfMembers` | Source/meteoio/meteoio/DataGenerator.cc:169-177 | a name is returned exactly when it is the part before the first ':' of some key; it never contains ':' |
| `DataGenerator.BuildStack` | Source/meteoio/meteoio/DataGenerator.cc:190-207 | the stack is the configured algorithms, upper-cased, in order, without NONE |
| `DataGenerator.KeptHasNoNone` | Source/meteoio/meteoio/DataGenerator.cc:197-199 | no NONE entry survives and every other configured entry does |
| `DataGenerator.KeptAppend` | Source/meteoio/meteoio/DataGenerator.cc:197-204 | configuration order is preserved: the stack of a concatenation is the concatenation of the stacks |
| `DataGenerator.Generate` | Source/meteoio/meteoio/DataGenerator.cc:87-96 | the record takes the generated value, other parameters unchanged, and the parameter is flagged exactly when its value now differs from the original |
| `DataGenerator.TryGenerators` | Source/meteoio/meteoio/DataGenerator.cc:83-99 | generators tried in order until one succeeds; only the filled parameter changes and only it can be flagged |
| `DataGenerator.FillMissing` | Source/meteoio/meteoio/DataGenerator.cc:66-102 | the timestep after every parameter's generators ran on every station; unchanged when no generator is configured |
| `DataGenerator.FillStations` | Source/meteoio/meteoio/DataGenerator.cc:73-100 | each station's record is replaced by the outcome of its generator loop |
| `DataGenerator.RunGenerators` | Source/meteoio/meteoio/DataGenerator.cc:74-99 | the missing parameter is added first, then the generators are tried until one succeeds |
| `DataGenerator.SkippedNotInvoked` | Source/meteoio/meteoio/DataGenerator.cc:86 | generators that skip the station or the timestep are never invoked: the record is unchanged |
| `DataGenerator.FirstSuccessWins` | Source/meteoio/meteoio/DataGenerator.cc:85-87 | the first generator that runs and reports success decides the record; later ones are not called |
| `DataGenerator.ChangedIsFlagged` | Source/meteoio/meteoio/DataGenerator.cc:88-89 | a value that ends up different from the original is flagged as generated |
| `DataGenerator.FillParamAddsParam` | Source/meteoio/meteoio/DataGenerator.cc:74-75 | after a pass every station carries the parameter and no other parameter changed |
| `DataGenerator.CreatePeriod` | Source/meteoio/meteoio/DataGenerator.cc:138 | create over one period replaces values inside [start, end) and leaves every other record |
| `DataGenerator.CreateOverPeriods` | Source/meteoio/meteoio/DataGenerator.cc:136-138 | the restriction cursor loop runs create on each period in turn and ANDs the statuses |
| `DataGenerator.StatusIsConjunction` | Source/meteoio/meteoio/DataGenerator.cc:134-138 | the status is the conjunction of create over all restriction periods |
| `DataGenerator.Flag` | Source/meteoio/meteoio/DataGenerator.cc:140-150 | exactly the records whose value changed from the original copy are flagged; values and dates untouched |
| `DataGenerator.MarkGenerated` | Source/meteoio/meteoio/DataGenerator.cc:141-144 | the comparison loop flags exactly the changed records |
| `DataGenerator.FillMissingSeries` | Source/meteoio/meteoio/DataGenerator.cc:111-156 | per parameter and non-empty station, generators are tried until one succeeds on all periods; unchanged when none configured |
| `Meteo1D.EraseArg` | Source/meteoio/meteoio/Meteo1DInterpolator.cc:32-41 | the in-place erase loop leaves exactly `Without(args, key)` |
| `Meteo1D.WithoutMembers` | Source/meteoio/meteoio/Meteo1DInterpolator.cc:32-41 | no pair with the key is left and every other pair is kept |
| `Meteo1D.WithoutAppend` | Source/meteoio/meteoio/Meteo1DInterpolator.cc:32-41 | the remaining pairs keep their relative order |
| `Meteo1D.ReadSettings` | Source/meteoio/meteoio/Meteo1DInterpolator.cc:45-57 | a negative WINDOW_SIZE is an IOError; the window is stored in days (seconds / 86400, default one day); resampling is on exactly when enabled and the window is non-zero |
| `Meteo1D.ResamplingStack.constructor` | Source/meteoio/meteoio/Meteo1DInterpolator.cc:225 | an empty stack |
| `Meteo1D.ResamplingStack.AddAlgorithm` | Source/meteoio/meteoio/Meteo1DInterpolator.cc:227-230 | pushes onto both parallel vectors, keeping them the same length |
| `Meteo1D.ResamplingStack.Empty` | Source/meteoio/meteoio/Meteo1DInterpolator.cc:264-266 | true exactly when no algorithm is stacked |
| `Meteo1D.ResamplingStack.BuildStack` | Source/meteoio/meteoio/Meteo1DInterpolator.cc:232-242 | the algorithms with no limit or a limit not below the gap, in stack order |
| `Meteo1D.UsableMembers` | Source/meteoio/meteoio/Meteo1DInterpolator.cc:235-239 | an algorithm is kept exactly when its limit is unset or at least the gap size |
| `Meteo1D.UnlimitedKeepsAll` | Source/meteoio/meteoio/Meteo1DInterpolator.cc:235-236 | without gap limits the whole stack is used, in order |
| `Meteo1D.ResamplingStack.Resample` | Source/meteoio/meteoio/Meteo1DInterpolator.cc:250-262 | the value left after running the filtered stack with both early exits (a later algorithm changed the value; an exact match got the original back) |
| `Meteo1D.ExactMatchStopsOnOriginal` | Source/meteoio/meteoio/Meteo1DInterpolator.cc:258-259 | on an exact match the stack stops as soon as an algorithm gives the original value |
| `Meteo1D.RunStackComesFromAlgorithm` | Source/meteoio/meteoio/Meteo1DInterpolator.cc:254-261 | the resampled value is one an algorithm of the stack produced, or the starting value for an empty stack |
| `Meteo1D.ResamplingStack.ProcessAlgorithms` | Source/meteoio/meteoio/Meteo1DInterpolator.cc:72-103 | IOError exactly when some MAX_GAP_SIZE is negative; otherwise the planned algorithms are pushed in order (NONE as LINEAR, gap in days, MAX_GAP_SIZE argument erased) and an empty stack gets a default LINEAR without limit |
| `Meteo1D.ResamplingStack.ProcessList` | Source/meteoio/meteoio/Meteo1DInterpolator.cc:74-97 | the loop stops at the first negative gap limit; otherwise the stack grows by the plan of every configured algorithm |
| `Meteo1D.ResamplingStack.ProcessOne` | Source/meteoio/meteoio/Meteo1DInterpolator.cc:75-96 | one configured algorithm: its gap limit is checked and converted, then the algorithm is pushed (ACCUMULATE on rank 1 of virtual stations gets a PERIOD argument) |
| `Meteo1D.AlgoName` | Source/meteoio/meteoio/Meteo1DInterpolator.cc:75-77 | the upper-cased name, NONE replaced by LINEAR |
| `Meteo1D.PlannedNames` | Source/meteoio/meteoio/Meteo1DInterpolator.cc:75-96 | no planned algorithm is NONE and none but ACCUMULATE keeps a MAX_GAP_SIZE argument |
| `Meteo1D.Locate` | Source/meteoio/meteoio/Meteo1DInterpolator.cc:116-134 | not found: before the first date is `begin` at 0, at or after the last is `end` at the last index, strictly inside is undefined behaviour; found: `exact_match` exactly when the dates agree, else `before` |
| `Meteo1D.ResampleStart` | Source/meteoio/meteoio/Meteo1DInterpolator.cc:112-149 | empty input gives false; with resampling disabled an exact match is returned as is, otherwise a nodata record at the requested date; the record is flagged resampled exactly when the match is not exact |
| `EditingBlock.InitStationSet` | Source/meteoio/meteoio/DataEditingAlgorithms.cc:80-94 | the set of upper-cased words of every argument with the keyword |
| `EditingBlock.StationSetMembers` | Source/meteoio/meteoio/DataEditingAlgorithms.cc:83-90 | a station is in the set exactly when some matching argument names it, in any case |
| `EditingBlock.UpperWords` | Source/meteoio/meteoio/DataEditingAlgorithms.cc:85-89 | the upper-cased whitespace-separated words of one value, and nothing else |
| `EditingBlock.NewBlock` | Source/meteoio/meteoio/DataEditingAlgorithms.cc:77-78 | EXCLUDE and ONLY sets from the arguments, station ID upper-cased |
| `EditingBlock.RequiredIds` | Source/meteoio/meteoio/DataEditingAlgorithms.h:61-65 | by default a block requires no station |
| `EditingBlock.ProvidedIds` | Source/meteoio/meteoio/DataEditingAlgorithms.h:66-69 | by default a block provides no station |
| `EditingBlock.PurgeIds` | Source/meteoio/meteoio/DataEditingAlgorithms.h:70-73 | by default the purged stations are the required ones |
| `EditingBlock.SkipStation` | Source/meteoio/meteoio/DataEditingAlgorithms.cc:105-115 | skip an empty series; otherwise edit exactly when the block is `*` or the upper-cased station's, the station is not excluded, and the ONLY set is empty or holds it |
| `EditingBlock.ExcludeBeatsOnly` | Source/meteoio/meteoio/DataEditingAlgorithms.cc:111 | an excluded station is skipped whatever the other settings |
| `EditingBlock.TimeFilterFromStation` | Source/meteoio/meteoio/DataEditingAlgorithms.cc:159-172 | without restrictions the series itself, else the records of every restriction period in cursor order |
| `EditingBlock.CopyPeriods` | Source/meteoio/meteoio/DataEditingAlgorithms.cc:165-169 | the cursor loop pushes every period's records in order |
| `EditingBlock.PushRange` | Source/meteoio/meteoio/DataEditingAlgorithms.cc:166-168 | appends exactly the timesteps [start, end) |
| `EditingBlock.SlicesLength` | Source/meteoio/meteoio/DataEditingAlgorithms.cc:165-169 | the filtered series has one record per covered timestep |
| `EditingBlock.SlicesFromSeries` | Source/meteoio/meteoio/DataEditingAlgorithms.cc:165-169 | the filtered series holds only records of the original series |
| `EditingBlock.SlicesWhole` | Source/meteoio/meteoio/DataEditingAlgorithms.cc:165-169 | one period spanning the series keeps it as it is |
| `EditingBlock.SwapRecord` | Source/meteoio/meteoio/DataEditingAlgorithms.cc:212-218 | both parameters added if missing (nodata), then src holds dest's former value and dest src's; all else unchanged |
| `EditingBlock.SwapInvolutive` | Source/meteoio/meteoio/DataEditingAlgorithms.cc:212-218 | swapping twice only leaves the two added parameters behind |
| `EditingBlock.MoveRecord` | Source/meteoio/meteoio/DataEditingAlgorithms.cc:265-269 | a dest holding data is left alone; a nodata dest takes src's value and src becomes nodata |
| `EditingBlock.MoveIdempotent` | Source/meteoio/meteoio/DataEditingAlgorithms.cc:265-269 | a second MOVE with the same parameters changes nothing |
| `EditingBlock.CopyRecord` | Source/meteoio/meteoio/DataEditingAlgorithms.cc:639-642 | dest added if missing and, when src exists, dest takes src's value; nothing else changes |
| `EditingBlock.CopyMakesEqual` | Source/meteoio/meteoio/DataEditingAlgorithms.cc:639-642 | after COPY from an existing parameter src and dest read the same, and COPY is idempotent |
| `EditingBlock.ExcludeRecord` | Source/meteoio/meteoio/DataEditingAlgorithms.cc:307-313 | the listed parameters the record has become nodata; nothing added or removed |
| `EditingBlock.KeepRecord` | Source/meteoio/meteoio/DataEditingAlgorithms.cc:355-371 | a kept parameter keeps its value and every other one is reset to nodata |
| `EditingBlock.KeepIsExcludeOfRest` | Source/meteoio/meteoio/DataEditingAlgorithms.cc:355-371 | KEEP of a set is EXCLUDE of every other parameter of the record |
| `EditingBlock.KeepExcludeIdempotent` | Source/meteoio/meteoio/DataEditingAlgorithms.cc:300-371 | KEEP and EXCLUDE are idempotent |
| `EditingBlock.EditMeta` | Source/meteoio/meteoio/DataEditingAlgorithms.cc:811-815 | empty name/ID and nodata coordinates leave that part; latitude with longitude and slope with azimuth are written together |
| `EditingBlock.EditMetaIdempotent` | Source/meteoio/meteoio/DataEditingAlgorithms.cc:811-815 | writing the same metadata twice is writing it once |
| `EditingBlock.Apply` | Source/meteoio/meteoio/DataEditingAlgorithms.cc:210-218 | every record edit keeps the date except the wildcard undefine, and only METADATA touches the station metadata |
| `EditingBlock.ApplyRange` | Source/meteoio/meteoio/DataEditingAlgorithms.cc:210 | one period's timesteps edited, every other record untouched |
| `EditingBlock.ApplyPeriodsOutside` | Source/meteoio/meteoio/DataEditingAlgorithms.cc:209-210 | a timestep outside every restriction period is left as it was |
| `EditingBlock.ApplyPeriodsOnce` | Source/meteoio/meteoio/DataEditingAlgorithms.cc:209-210 | a timestep in exactly one period is edited exactly once |
| `EditingBlock.ApplyPeriodsKeepsDates` | Source/meteoio/meteoio/DataEditingAlgorithms.cc:209-210 | every edit but the wildcard EXCLUDE keeps the timestamps |
| `EditingBlock.UndefineOrOriginal` | Source/meteoio/meteoio/DataEditingAlgorithms.cc:302-305 | after the wildcard EXCLUDE each record is the original or has an undefined date |
| `EditingBlock.EditRange` | Source/meteoio/meteoio/DataEditingAlgorithms.cc:210-219 | the inner loop edits exactly the timesteps [start, end) |
| `EditingBlock.EditSeries` | Source/meteoio/meteoio/DataEditingAlgorithms.cc:209-220 | the cursor loop edits each restriction period in turn |
| `EditingBlock.EditedAll` | Source/meteoio/meteoio/DataEditingAlgorithms.cc:205-206 | skipped stations are untouched, the others edited over their periods |
| `EditingBlock.EditStations` | Source/meteoio/meteoio/DataEditingAlgorithms.cc:203-222 | the station loop shared by SWAP, COPY, KEEP and in-place METADATA gives `EditedAll` |
| `EditingBlock.EditedAllDisjoint` | Source/meteoio/meteoio/DataEditingAlgorithms.cc:205-221 | on an edited station each timestep in exactly one period is edited once |
| `EditingAlgorithms.ScanArg` | Source/meteoio/meteoio/DataEditingAlgorithms.cc:187-197 | the argument loop yields the value of the last argument with that key, or none when no argument has it |
| `EditingAlgorithms.LastValueSpec` | Source/meteoio/meteoio/DataEditingAlgorithms.cc:187-197 | a key is found exactly when some argument carries it, and then the value is that of the last such argument (later ones overwrite) |
| `EditingAlgorithms.ParseSrcDest` | Source/meteoio/meteoio/DataEditingAlgorithms.cc:182-201 | SWAP/COPY succeed iff both DEST and SRC are given, otherwise InvalidArgument; SRC is upper-cased, DEST kept as written, last occurrence wins |
| `EditingAlgorithms.SwapTimeSeries` | Source/meteoio/meteoio/DataEditingAlgorithms.cc:203-221 | the result is the per-station, per-period swap edit of the input series, skipped stations untouched |
| `EditingAlgorithms.SwapExchanges` | Source/meteoio/meteoio/DataEditingAlgorithms.cc:211-218 | inside a period the new dest value is the old src value and the new src value is the old dest value |
| `EditingAlgorithms.CopyTimeSeries` | Source/meteoio/meteoio/DataEditingAlgorithms.cc:630-645 | each station the block does not skip is edited, over each restricted period, by COPY on every record, the others are left as they are |
| `EditingAlgorithms.ParseMove` | Source/meteoio/meteoio/DataEditingAlgorithms.cc:232-250 | MOVE succeeds iff DEST is given and SRC names at least one parameter; the sources are the upper-cased SRC words as a sorted set without duplicates |
| `EditingAlgorithms.MoveStation` | Source/meteoio/meteoio/DataEditingAlgorithms.cc:258-272 | the loop over the sources equals applying each present source's move, in sorted order, over the periods of the series as it then is |
| `EditingAlgorithms.MoveTimeSeries` | Source/meteoio/meteoio/DataEditingAlgorithms.cc:252-274 | every station is either skipped and unchanged or equals MovedSeries of its original series; the number of stations is kept |
| `EditingAlgorithms.MoveKeepsExisting` | Source/meteoio/meteoio/DataEditingAlgorithms.cc:266-269 | a record whose destination already held data is left unchanged by MOVE |
| `EditingAlgorithms.MoveKeepsDates` | Source/meteoio/meteoio/DataEditingAlgorithms.cc:252-274 | MOVE never changes, adds or removes a timestamp |
| `EditingAlgorithms.ParseParams` | Source/meteoio/meteoio/DataEditingAlgorithms.cc:284-298 | EXCLUDE/KEEP succeed iff PARAMS names at least one parameter; the set is the upper-cased words; the wildcard is on exactly when the set is {"*"} |
| `EditingAlgorithms.RemoveUndefMembers` | Source/meteoio/meteoio/DataEditingAlgorithms.cc:328 | erasing the undefined timestamps keeps exactly the records that have a date |
| `EditingAlgorithms.ExcludeTimeSeries` | Source/meteoio/meteoio/DataEditingAlgorithms.cc:317-330 | each non-skipped station becomes its excluded series (parameters set to nodata, or whole timestamps erased for the wildcard) |
| `EditingAlgorithms.WildcardDeletesTimestamps` | Source/meteoio/meteoio/DataEditingAlgorithms.cc:300-315 | with `*` every remaining record is an unchanged original with a date, and every dated record outside the periods survives |
| `EditingAlgorithms.ExcludeKeepsTimestamps` | Source/meteoio/meteoio/DataEditingAlgorithms.cc:300-315 | without the wildcard EXCLUDE keeps the timestamps of the series |
| `EditingAlgorithms.KeepTimeSeries` | Source/meteoio/meteoio/DataEditingAlgorithms.cc:373-383 | the result is the per-station, per-period keep edit of the input series |
| `EditingAlgorithms.KeepLeavesKept` | Source/meteoio/meteoio/DataEditingAlgorithms.cc:355-371 | inside a period a parameter keeps its value if it is listed and becomes nodata otherwise |
| `EditingAlgorithms.CleanGeneratorArgs` | Source/meteoio/meteoio/DataEditingAlgorithms.cc:657-669 | the push_back loop builds exactly `Cleaned`: the arguments not named ALGORITHM or PARAM, in their order, repeated keys kept |
| `EditingAlgorithms.CleanedMembers` | Source/meteoio/meteoio/DataEditingAlgorithms.cc:657-669 | an argument is forwarded iff it was given and is named neither ALGORITHM nor PARAM; none is added |
| `EditingAlgorithms.CleanedAppend` | Source/meteoio/meteoio/DataEditingAlgorithms.cc:661-666 | the filter keeps relative order: the forwarded arguments of a concatenation are the concatenation of each part's, so a repeated key's last value stays last |
| `EditingAlgorithms.ParseCreate` | Source/meteoio/meteoio/DataEditingAlgorithms.cc:671-685 | CREATE succeeds iff PARAM and ALGORITHM are both non-empty, otherwise InvalidArgument; the block carries their last values |
| `EditingMerge.FirstWithId` | Source/meteoio/meteoio/DataEditingAlgorithms.cc:533-540 | the index found is the first element with the ID; none is found exactly when no element has it |
| `EditingMerge.FindStation` | Source/meteoio/meteoio/DataEditingAlgorithms.cc:556-565 | the search loop returns the first element whose upper-cased ID is the block's (empty series skipped) |
| `EditingMerge.DistinctCard` | Source/meteoio/meteoio/DataEditingAlgorithms.cc:519-522 | the set built from the MERGE list is smaller than the list exactly when the list repeats a station |
| `EditingMerge.ParseMerge` | Source/meteoio/meteoio/DataEditingAlgorithms.cc:494-529 | MERGE on `*` is refused; otherwise it succeeds iff the list has no repeats, does not contain the station itself and is not empty, each failure an InvalidArgument |
| `EditingMerge.MergeRequiredIds` | Source/meteoio/meteoio/DataEditingAlgorithms.cc:595-599 | the required IDs are exactly the stations merged from |
| `EditingMerge.MergeOneSource` | Source/meteoio/meteoio/DataEditingAlgorithms.cc:543-550 | merging one source station changes only the target, which absorbs every element with that ID in index order |
| `EditingMerge.MergeListed` | Source/meteoio/meteoio/DataEditingAlgorithms.cc:531-552 | without the target nothing changes; otherwise only the target changes and it absorbs every listed station in declaration order |
| `EditingMerge.MergeRowOthers` | Source/meteoio/meteoio/DataEditingAlgorithms.cc:543-550 | the merged target depends only on the other elements, not on the target's own earlier value |
| `EditingMerge.MergeTimeSeries` | Source/meteoio/meteoio/DataEditingAlgorithms.cc:554-593 | the series of the target becomes its merge with every listed station's series, time-filtered under restrictions and KEEP-filtered when PARAMS is given |
| `EditingMerge.MergeStations` | Source/meteoio/meteoio/DataEditingAlgorithms.cc:531-552 | the target's metadata becomes its merge with every listed station's metadata; all other stations are unchanged |
| `EditingMerge.MergeRowNoMatch` | Source/meteoio/meteoio/DataEditingAlgorithms.cc:546-549 | a station that is not present is never merged in: the target is unchanged |
| `EditingMerge.ParseAutoMerge` | Source/meteoio/meteoio/DataEditingAlgorithms.cc:393-404 | the block carries the last MERGE_STRATEGY and MERGE_CONFLICTS given |
| `EditingMerge.SwapPop` | Source/meteoio/meteoio/DataEditingAlgorithms.cc:415-416 | swapping an element with the back and popping removes exactly that element from the multiset |
| `EditingMerge.SwapPopInto` | Source/meteoio/meteoio/DataEditingAlgorithms.cc:413-417 | one merge step shortens the vector by one: the target takes the merge of itself with the element at the index, and from the index on the rest is swapped with the back and popped |
| `EditingMerge.MergeInto` | Source/meteoio/meteoio/DataEditingAlgorithms.cc:406-420 | the vector after mergeStations is MergedAt: the elements before the target untouched, the target the fold of the merge over the later elements of its ID in the order the swap-and-pop loop meets them, then what the scan leaves |
| `EditingMerge.MergedAtMeaning` | Source/meteoio/meteoio/DataEditingAlgorithms.cc:406-420 | after the merge at the target the prefix is kept, the target is that fold, the elements absorbed and the elements after the target are together exactly the elements that followed it, the absorbed ones all of the ID and none of the ID left after the target |
| `EditingMerge.SwapPopFrontLoses` | Source/meteoio/meteoio/DataEditingAlgorithms.cc:415-416 | swapping the front of the remaining part with the back and popping loses exactly that front element |
| `EditingMerge.MetRestSplit` | Source/meteoio/meteoio/DataEditingAlgorithms.cc:410-419 | the elements the loop absorbs and those it leaves are, together, exactly the elements after the target |
| `EditingMerge.MetOfId` | Source/meteoio/meteoio/DataEditingAlgorithms.cc:412 | every element absorbed has the target's ID |
| `EditingMerge.RestNoId` | Source/meteoio/meteoio/DataEditingAlgorithms.cc:410-419 | no element left after the target has its ID |
| `EditingMerge.AbsorbKeepsId` | Source/meteoio/meteoio/DataEditingAlgorithms.cc:413-414 | with a merge that keeps the ID of the element merged into, the target keeps its ID after absorbing any elements |
| `EditingMerge.MergedAtKeeps` | Source/meteoio/meteoio/DataEditingAlgorithms.cc:406-420 | a merge at the target keeps every element of another ID as often as before |
| `EditingMerge.MergedAtIds` | Source/meteoio/meteoio/DataEditingAlgorithms.cc:406-420 | a merge at the target loses no ID and adds none |
| `EditingMerge.AutoMergeAll` | Source/meteoio/meteoio/DataEditingAlgorithms.cc:422-427 | with `*` the result is AutoMerged: each element not skipped, in index order, runs mergeStations at its index; afterwards no element not skipped shares its ID with a later one, the skipped elements and those without an ID are all kept, and every ID is still present |
| `EditingMerge.AutoInvStep` | Source/meteoio/meteoio/DataEditingAlgorithms.cc:422-427 | one iteration of the `*` loop keeps its invariant: no duplicate after a processed element, skipped elements kept, IDs preserved |
| `EditingMerge.AutoMergeStep` | Source/meteoio/meteoio/DataEditingAlgorithms.cc:424-426 | the no-duplicates-after invariant of the `*` loop survives one mergeStations call |
| `EditingMerge.AutoMergeOne` | Source/meteoio/meteoio/DataEditingAlgorithms.cc:428-440 | for one station ID, without a match nothing changes; otherwise the result is MergedAt its first element (the fold of the merge over the others of that ID), and that ID appears nowhere else |
| `EditingMerge.SkipsId` | Source/meteoio/meteoio/DataEditingAlgorithms.cc:105-115 | skipStation depends on a series only through its upper-cased station ID |
| `EditingMerge.AutoMergeTimeSeries` | Source/meteoio/meteoio/DataEditingAlgorithms.cc:468-490 | on the series: with `*` each non-skipped series, in order, absorbs the later series of its station, prepared by the time restrictions, and no non-skipped station has a duplicate after it; for one ID its first series is MergedAt with the same merge and that ID appears nowhere else |
| `EditingMerge.AutoMergeStations` | Source/meteoio/meteoio/DataEditingAlgorithms.cc:422-441 | on the metadata: with `*` each station, in order, absorbs the later stations of its upper-cased ID and no two stations share an upper-cased ID; for one ID its first station is MergedAt and that ID appears nowhere else |
| `EditingMetadata.UpperKeys` | Source/meteoio/meteoio/DataEditingAlgorithms.cc:718 | the keys are compared upper-cased, values and order kept |
| `EditingMetadata.RealValueFails` | Source/meteoio/meteoio/DataEditingAlgorithms.cc:723-733 | reading a numeric argument fails, with InvalidArgument, exactly when one of its values does not convert |
| `EditingMetadata.ScanReal` | Source/meteoio/meteoio/DataEditingAlgorithms.cc:717-734 | the loop for one numeric key yields the last converted value, nodata when absent, or the first conversion error |
| `EditingMetadata.ParseMetadata` | Source/meteoio/meteoio/DataEditingAlgorithms.cc:713-742 | METADATA succeeds iff all numbers convert and latitude/longitude and slope/azimuth are each given together; it edits in place exactly when there is no new ID or no time restriction |
| `EditingMetadata.MetadataProvidedIds` | Source/meteoio/meteoio/DataEditingAlgorithms.cc:744-751 | the provided IDs are empty without a new ID and exactly the new ID otherwise |
| `EditingMetadata.MigrateRange` | Source/meteoio/meteoio/DataEditingAlgorithms.cc:800-806 | within one period every record is reset in place and its copy, with the new metadata, is pushed to the temporary station |
| `EditingMetadata.MovedRecordsStep` | Source/meteoio/meteoio/DataEditingAlgorithms.cc:799-800 | the migrated records of k+1 periods are those of k periods followed by period k's records of the series as it then is |
| `EditingMetadata.MigratePeriod` | Source/meteoio/meteoio/DataEditingAlgorithms.cc:799-815 | one restriction period extends the reset series and the migrated records by that period |
| `EditingMetadata.MigrateSeries` | Source/meteoio/meteoio/DataEditingAlgorithms.cc:799-816 | over all periods, the series is reset in each period and the temporary station holds every period's records with the new metadata |
| `EditingMetadata.MovedRecordsDates` | Source/meteoio/meteoio/DataEditingAlgorithms.cc:799-816 | the temporary station carries exactly the timestamps of the periods, in period order |
| `EditingMetadata.MovedRecordsMeta` | Source/meteoio/meteoio/DataEditingAlgorithms.cc:808-815 | every migrated record carries the station's metadata with the edit applied |
| `EditingMetadata.ApplyPeriodsKeepsMeta` | Source/meteoio/meteoio/DataEditingAlgorithms.cc:803 | resetting a record never touches its station metadata |
| `EditingMetadata.MergeMigratedData` | Source/meteoio/meteoio/DataEditingAlgorithms.cc:767-789 | the first station already having the new ID (compared exactly), or a new empty station appended at the end, receives every temporary station merged in order; nothing else changes |
| `EditingMetadata.MigrateStations` | Source/meteoio/meteoio/DataEditingAlgorithms.cc:792-817 | skipped stations stay and contribute an empty temporary station; the others are reset over their periods and contribute their migrated records |
| `EditingMetadata.MetadataTimeSeries` | Source/meteoio/meteoio/DataEditingAlgorithms.cc:792-822 | in place, the metadata of each timestep in the periods is edited; otherwise the periods' timesteps move to the station with the new ID |
| `EditingMetadata.EditStationList` | Source/meteoio/meteoio/DataEditingAlgorithms.cc:824-861 | the station list is unchanged without the source; otherwise the edit lands on the source (in place), on the station with the new ID, or on a copy of the source appended at the end |
| `EditingMetadata.MetadataStationsAsWritten` | Source/meteoio/meteoio/DataEditingAlgorithms.cc:826-833 | the station list edited as written, the raw station ID compared with the upper-cased block ID |
| `EditingMetadata.MetadataStations` | Source/meteoio/meteoio/DataEditingAlgorithms.cc:824-861 | the station list edited with the case-insensitive lookup every other block uses |
| `EditingMetadata.LowerCaseStationMissed` | Source/meteoio/meteoio/DataEditingAlgorithms.cc:829 | a station whose ID is written in lower case is selected by the series editing but never found by the metadata editing as written |
| `EditingMetadata.MetadataStationsFindsSeriesStation` | Source/meteoio/meteoio/DataEditingAlgorithms.cc:824-861 | with the case-insensitive lookup, the first station whose ID matches in any case is the one edited in place |
| `ICsv.StandardizeNodata` | Source/meteoio/meteoio/plugins/iCSVHelper.h:64-75 | every coordinate left at default_nodata becomes IOUtils::nodata, set coordinates and the slope are unchanged |
| `ICsv.StandardizeIdempotent` | Source/meteoio/meteoio/plugins/iCSVHelper.h:64-75 | standardizing twice gives the same location as once |
| `ICsv.StandardizedNeverEmpty` | Source/meteoio/meteoio/plugins/iCSVHelper.h:50 | a standardized location is never empty (isEmpty holds only for three default_nodata coordinates) |
| `ICsv.ExtractCoordinates` | Source/meteoio/meteoio/plugins/iCSVHelper.cc:171-187 | the matched point is standardized before it is returned |
| `ICsv.ExtractEpsgCode` | Source/meteoio/meteoio/plugins/iCSVHelper.cc:109-118 | a code is returned exactly when the string is `EPSG:` followed by four or five digits, and it is those digits |
| `ICsv.SetEPSG` | Source/meteoio/meteoio/plugins/iCSVHelper.h:114-117 | setEPSG sets the code and an srid starting with `EPSG:`, and nothing else |
| `ICsv.SetEpsgRoundTrip` | Source/meteoio/meteoio/plugins/iCSVHelper.h:114-117 | the srid written by setEPSG passes extractEpsgCode exactly for four- or five-digit codes, and reading it back gives the code |
| `ICsv.HeaderEntries` | Source/meteoio/meteoio/plugins/iCSVHelper.h:155-175 | field_delimiter, geometry and srid are always written; station_id, timestamp_meaning, nodata, timezone and doi exactly when set, each with its value; no other key |
| `ICsv.ToOutputMap` | Source/meteoio/meteoio/plugins/iCSVHelper.h:155-178 | the output map holds the header entries, plus the optional metadata for keys the header does not already hold |
| `ICsv.ToOutputMapStationId` | Source/meteoio/meteoio/plugins/iCSVHelper.h:155-178 | a set station_id wins over an optional key of that name; an unset one lets the optional value through |
| `ICsv.ScanKeys` | Source/meteoio/meteoio/plugins/iCSVHelper.cc:720-725 | the scan of the optional keys in std::map order gives true iff every left key is on the right with the same value, and fails (undefined) iff the first mismatching key in that order is missing on the right |
| `ICsv.ScanKeysStopsBeforeMissing` | Source/meteoio/meteoio/plugins/iCSVHelper.cc:720-725 | left {a:1, b:2} against right {a:3}: the scan returns false at `a` before it reaches the missing `b` |
| `ICsv.RoughlyEqualMeta` | Source/meteoio/meteoio/plugins/iCSVHelper.cc:689-727 | roughly equal iff no set slot clashes and every optional key of the left is on the right with the same value; undefined exactly when, with no clash, the first mismatching key is missing on the right |
| `ICsv.RoughlyEqualMetaReflexive` | Source/meteoio/meteoio/plugins/iCSVHelper.cc:689-727 | every METADATA section is roughly equal to itself |
| `ICsv.DefaultRoughlyEqualsAny` | Source/meteoio/meteoio/plugins/iCSVHelper.cc:689-727 | a default METADATA section is roughly equal to any section |
| `ICsv.RoughlyEqualIgnoresLayout` | Source/meteoio/meteoio/plugins/iCSVHelper.cc:690-695 | delimiter, geometry and srid never decide compatibility (their tests have empty bodies) |
| `ICsv.Fill` | Source/meteoio/meteoio/plugins/iCSVHelper.cc:731-756 | a slot keeps the left value when set and takes the right value otherwise |
| `ICsv.MergeMeta` | Source/meteoio/meteoio/plugins/iCSVHelper.cc:729-767 | += succeeds exactly when the sections are roughly equal (IOException otherwise, undefined where roughlyEqual is); each of the nine slots keeps the left value when set and takes the right value otherwise; the right optional metadata is copied over the left |
| `ICsv.MergeMetaIdempotent` | Source/meteoio/meteoio/plugins/iCSVHelper.cc:729-767 | merging a section into itself changes nothing |
| `ICsv.MergeIntoDefault` | Source/meteoio/meteoio/plugins/iCSVHelper.cc:729-767 | merging into a default section yields the other section |
| `ICsv.MergeDefaultIntoOptionalUndefined` | Source/meteoio/meteoio/plugins/iCSVHelper.cc:718-723 | a left key missing on the right reaches the unchecked find dereference, modelled as undefined behaviour |
| `ICsv.FirstIndex` | Source/meteoio/meteoio/plugins/iCSVHelper.h:208-214 | the first position holding the element, or none exactly when it is absent |
| `ICsv.GetFieldIndex` | Source/meteoio/meteoio/plugins/iCSVHelper.h:208-214 | getFieldIndex returns the first column with that name, npos exactly when no column has it |
| `ICsv.RoughlyEqualFields` | Source/meteoio/meteoio/plugins/iCSVHelper.cc:800-828 | roughly equal iff no list pair clashes and every other field of the left is on the right with the same value; undefined exactly when, with no clash, the first mismatching key is missing on the right |
| `ICsv.RoughlyEqualFieldsLists` | Source/meteoio/meteoio/plugins/iCSVHelper.cc:800-828 | FIELDS sections are roughly equal iff each list pair is equal or has an empty side |
| `ICsv.MergeFields` | Source/meteoio/meteoio/plugins/iCSVHelper.cc:830-859 | += succeeds exactly when roughly equal; each of the six lists keeps the left list when non-empty and takes the right list otherwise; the right other fields are copied over |
| `ICsv.MergeFieldsIdentities` | Source/meteoio/meteoio/plugins/iCSVHelper.cc:830-859 | merging a fields section into itself or into a default one yields that section |
| `ICsv.ConvertVector` | Source/meteoio/meteoio/plugins/iCSVHelper.cc:128-136 | one converted value per string, in order |
| `ICsv.PopulateMetaData` | Source/meteoio/meteoio/plugins/iCSVHelper.cc:346-372 | only a field_delimiter not exactly one character long fails (IOException); known keys set their slot (slope into the location); unknown keys go to the optional metadata |
| `ICsv.PopulateFields` | Source/meteoio/meteoio/plugins/iCSVHelper.cc:374-391 | the value is split at the field delimiter into the named list, or stored under its key in the other fields |
| `ICsv.FormatValidity` | Source/meteoio/meteoio/plugins/iCSVHelper.cc:458-511 | an invalid first line aborts; otherwise valid iff the delimiter is in the valid list, geometry is set, srid is a valid EPSG code, fields exist and every non-empty list has one entry per field; the code is returned |
| `ICsv.StoredEpsg` | Source/meteoio/meteoio/plugins/iCSVHelper.cc:458-476 | the EPSG code is stored exactly when the first line, the delimiter, the geometry and the srid pass, before the fields are checked; it is the srid's digits, below 100000 |
| `ICsv.DigitsBelow` | Source/meteoio/meteoio/plugins/iCSVHelper.cc:109-118 | a code of at most five digits is below 100000 |
| `ICsv.SetEpsgPassesCheck` | Source/meteoio/meteoio/plugins/iCSVHelper.cc:458-482 | an srid written by setEPSG with a four- or five-digit code stores that code when the check passes |
| `ICsv.Classify` | Source/meteoio/meteoio/plugins/iCSVHelper.cc:264-299 | a lone `#` is a comment, a blank line is skipped, sequential reading stops at a data line, and a header line without a leading `#` is malformed; content loses its `#` |
| `ICsv.HeaderLineNeedsHash` | Source/meteoio/meteoio/plugins/iCSVHelper.cc:293-294 | outside DATA a non-marker line not starting with `#` is an error |
| `ICsv.SequentialStopsAtData` | Source/meteoio/meteoio/plugins/iCSVHelper.cc:291-292 | in the DATA section a data line stops the reading exactly in sequential mode |
| `ICsv.TimeColumn` | Source/meteoio/meteoio/plugins/iCSVHelper.cc:603-618 | findTime fails (InvalidFormat) iff neither timestamp nor julian is a field; otherwise it records both flags and the index of timestamp, or of julian without it |
| `ICsv.LocationColumn` | Source/meteoio/meteoio/plugins/iCSVHelper.cc:620-629 | with the location in the header there is no column; otherwise the geometry must be a field and its index is taken |
| `ICsv.GeometryPlacementOn` | Source/meteoio/meteoio/plugins/iCSVHelper.cc:582-601 | a geometry that is neither a point nor a column is an IOException; the location moves to the data only when the coordinates are empty and name a column |
| `ICsv.GeometryPlacementAsWritten` | Source/meteoio/meteoio/plugins/iCSVHelper.cc:582-601 | parseGeometry as written tests the coordinates after standardization |
| `ICsv.ColumnGeometryNeverDetected` | Source/meteoio/meteoio/plugins/iCSVHelper.cc:582-590 | as written the location never moves to a data column |
| `ICsv.ColumnGeometryExample` | Source/meteoio/meteoio/plugins/iCSVHelper.cc:582-590 | geometry `position` naming a column: as written an IOException, corrected a data column |
| `ICsv.GeometryPlacement` | Source/meteoio/meteoio/plugins/iCSVHelper.cc:582-601 | corrected: the location is in the data exactly when no point was matched, and then it must name a column |
| `ICsv.NoDataOf` | Source/meteoio/meteoio/plugins/iCSVHelper.h:336-339 | the file's nodata, or IOUtils::nodata when unset |
| `ICsv.ParsedRow` | Source/meteoio/meteoio/plugins/iCSVHelper.cc:325-344 | a parsed row has one value per cell and one location when locations are in the data; its date is the converted time cell |
| `ICsv.RowLocationNeverRejected` | Source/meteoio/meteoio/plugins/iCSVHelper.cc:329-331 | the invalid-location exception of processData can never fire, since extractCoordinates standardizes |
| `ICsv.DatesWithinMembers` | Source/meteoio/meteoio/plugins/iCSVHelper.h:350-358 | the dates kept are exactly those in the inclusive range |
| `ICsv.DatesWithinIncreasing` | Source/meteoio/meteoio/plugins/iCSVHelper.h:350-358 | dates kept from an increasing file are increasing |
| `ICsv.LocationsWithin` | Source/meteoio/meteoio/plugins/iCSVHelper.h:359-370 | with a location per date, one location per in-range date; otherwise undefined behaviour |
| `ICsv.LineStep` | Source/meteoio/meteoio/plugins/iCSVHelper.cc:264-344 | a marker before its prerequisites and a malformed line are InvalidFormat; comments and blanks change nothing; stop leaves the state unchanged |
| `ICsv.LineStepAppends` | Source/meteoio/meteoio/plugins/iCSVHelper.cc:325-344 | a line only appends to the dates and rows, one of each at most, and both grow together |
| `ICsv.LineStepNeverAborts` | Source/meteoio/meteoio/plugins/iCSVHelper.cc:264-299 | processing a line never aborts: its errors are InvalidFormat |
| `ICsv.ReadFrom` | Source/meteoio/meteoio/plugins/iCSVHelper.cc:251-257 | the lines are processed in order until one says stop or fails; the lines consumed stay within the file |
| `ICsv.ReadFromConsumesAll` | Source/meteoio/meteoio/plugins/iCSVHelper.cc:251-257 | without sequential reading every line is consumed when reading succeeds |
| `ICsv.ReadFromAppends` | Source/meteoio/meteoio/plugins/iCSVHelper.cc:251-257 | reading only appends to the dates and rows, at most one of each per line consumed |
| `ICsv.NeedsColumnAgrees` | Source/meteoio/meteoio/plugins/iCSVHelper.cc:547-569 | the as-written and intended column tests agree except for RSWR with OSWR present |
| `ICsv.OswrDoesNotCoverRswr` | Source/meteoio/meteoio/plugins/iCSVHelper.cc:562-566 | as written RSWR data asks for a column even when the fields name OSWR |
| `ICsv.Filter` | Source/meteoio/meteoio/plugins/iCSVHelper.cc:560-567 | keeps exactly the elements passing the test, in order |
| `ICsv.SortedParams` | Source/meteoio/meteoio/plugins/iCSVHelper.cc:551 | the std::set iteration yields each parameter once, smallest first |
| `ICsv.ICsvFile.constructor` | Source/meteoio/meteoio/plugins/iCSVHelper.cc:189-193 | a new file has default sections, the location in the header and no data |
| `ICsv.ICsvFile.ProcessLine` | Source/meteoio/meteoio/plugins/iCSVHelper.cc:264-299 | the state after a line is LineStep's, or unchanged with the error |
| `ICsv.ICsvFile.ReadFile` | Source/meteoio/meteoio/plugins/iCSVHelper.cc:234-262 | an invalid first line aborts before any change; otherwise the state is the fold ReadFrom of the line processing over the lines, its error is returned unchanged, and on success skip_lines_to_data is one plus the lines consumed |
| `ICsv.ICsvFile.ReadLines` | Source/meteoio/meteoio/plugins/iCSVHelper.cc:251-257 | the loop over the lines leaves the state of ReadFrom and returns the lines consumed, or its error, which is never an abort |
| `ICsv.ICsvFile.CheckFormatValidity` | Source/meteoio/meteoio/plugins/iCSVHelper.cc:458-511 | the result is FormatValidity's, with the code stored on success; the EPSG code is stored whenever the early checks pass, also when a later check fails; nothing else changes |
| `ICsv.ICsvFile.ParseGeometry` | Source/meteoio/meteoio/plugins/iCSVHelper.cc:582-601 | the corrected parseGeometry: an error leaves the state alone; otherwise the station location is stored and moved to the data when it names a column |
| `ICsv.ICsvFile.GetNoData` | Source/meteoio/meteoio/plugins/iCSVHelper.h:336-339 | default_nodata reads as IOUtils::nodata; a set nodata is returned as is |
| `ICsv.ICsvFile.GetTimeZone` | Source/meteoio/meteoio/plugins/iCSVHelper.h:340 | default_nodata reads as IOUtils::nodata; a set time zone is returned as is |
| `ICsv.ICsvFile.ReadData` | Source/meteoio/meteoio/plugins/iCSVHelper.cc:401-414 | no rows or a date outside first..last is an IOException; the first exact date's row gives the field's value; no exact date gives nodata |
| `ICsv.ICsvFile.GetDatesInFile` | Source/meteoio/meteoio/plugins/iCSVHelper.h:350-358 | the dates within [start, end], in file order |
| `ICsv.ICsvFile.GetLocationsInData` | Source/meteoio/meteoio/plugins/iCSVHelper.h:359-370 | empty when the location is in the header, else the locations of the in-range dates |
| `ICsv.ICsvFile.ColumnsToAppendAsWritten` | Source/meteoio/meteoio/plugins/iCSVHelper.cc:547-569 | an IOException on no data; otherwise the available parameters, sorted, that the as-written test keeps |
| `ICsv.ICsvFile.ColumnsToAppend` | Source/meteoio/meteoio/plugins/iCSVHelper.cc:547-569 | corrected: RSWR needs no column when the fields name RSWR or OSWR |
| `CsvSpecs.DelimiterOf` | Source/meteoio/meteoio/plugins/CsvIO.cc:423-433 | accepted exactly when the spec is one character, SPACE or TAB; one character is itself, the names give a blank; any other spec is an InvalidArgument |
| `CsvSpecs.SkipPrefix` | Source/meteoio/meteoio/plugins/CsvIO.cc:413-421 | the leading column numbers before the first 0, which stops the list |
| `CsvSpecs.SkipColumns` | Source/meteoio/meteoio/plugins/CsvIO.cc:413-421 | every 1-based column number of that prefix is skipped as its 0-based index |
| `CsvSpecs.SkipColumnsOnly` | Source/meteoio/meteoio/plugins/CsvIO.cc:413-421 | and nothing else is skipped: each skipped index is one of the listed numbers minus one |
| `CsvSpecs.HeaderSpecOf` | Source/meteoio/meteoio/plugins/CsvIO.cc:394-410 | a special-header spec is accepted exactly when it has three ':'-separated parts and a positive line and column; the result holds those; else InvalidFormat |
| `CsvSpecs.HeadersSpecs` | Source/meteoio/meteoio/plugins/CsvIO.cc:394-410 | all specs accepted, in order and one result per spec, or InvalidFormat when any one is not |
| `CsvSpecs.ParseHeadersSpecs` | Source/meteoio/meteoio/plugins/CsvIO.cc:394-410 | the loop over the specs returns the value of HeadersSpecs |
| `CsvSpecs.HeadersSpecsErrExtends` | Source/meteoio/meteoio/plugins/CsvIO.cc:394-410 | one bad spec anywhere makes the whole list fail |
| `CsvSpecs.OnLineSelects` | Source/meteoio/meteoio/plugins/CsvIO.cc:514 | the header specs of one line (equal_range on the line number), and only those |
| `CsvSpecs.FirstRule` | Source/meteoio/meteoio/plugins/CsvIO.cc:447-463 | the name of the first rule a field matches, or the field itself when none matches |
| `CsvSpecs.IdentifyFieldAsWritten` | Source/meteoio/meteoio/plugins/CsvIO.cc:447-463 | the rule table in the source's order, first match wins |
| `CsvSpecs.IdentifyField` | Source/meteoio/meteoio/plugins/CsvIO.cc:447-463 | corrected table: the result is the field itself or one of MeteoIO's parameter names |
| `CsvSpecs.FirstRuleIs` | Source/meteoio/meteoio/plugins/CsvIO.cc:447-463 | the k-th rule decides when it is the first that matches |
| `CsvSpecs.WsMaxReadAsWind` | Source/meteoio/meteoio/plugins/CsvIO.cc:455-460 | as written a WS_MAX... field becomes VW; corrected it becomes VW_MAX |
| `CsvSpecs.IncomingRadiationRead` | Source/meteoio/meteoio/plugins/CsvIO.cc:452 | as written INCOMING_RADIATION... becomes RSWR; corrected it becomes ISWR |
| `CsvSpecs.ParamName` | Source/meteoio/meteoio/plugins/CsvIO.cc:476-486 | corrected: an upper-cased static parameter name is kept; any other name is cleaned and mapped by the corrected identifyField (WS_MAX to VW_MAX, INCOMING_RADIATION to ISWR) |
| `CsvSpecs.AssignMetadata` | Source/meteoio/meteoio/plugins/CsvIO.cc:466-503 | corrected in its PARAM value (via ParamName): ID and NAME only fill an empty value, NODATA and PARAM overwrite, SKIP changes nothing; the numeric keys need a number (else InvalidArgument); any other key is InvalidFormat |
| `CsvSpecs.IdsJoined` | Source/meteoio/meteoio/plugins/CsvIO.cc:525-530 | successive ID header fields are appended with '-' between them, and the next one continues after a trailing '-' |
| `CsvSpecs.ApplyWalk` | Source/meteoio/meteoio/plugins/CsvIO.cc:514-535 | the header entries are assigned in order; an assignment error is raised first, then a column error that stopped the walk |
| `CsvSpecs.HeaderEntries` | Source/meteoio/meteoio/plugins/CsvIO.cc:517-522 | each spec names an existing column (1..number of cells) and yields its upper-cased key and unquoted cell; a column 0 or past the end stops the walk with InvalidArgument |
| `CsvSpecs.FileNameEntries` | Source/meteoio/meteoio/plugins/CsvIO.cc:544-592 | a file name whose start differs from the spec's constant prefix yields no entries and an error; errors are InvalidFormat or OutOfRange only |
| `CsvSpecs.FileNameWalk` | Source/meteoio/meteoio/plugins/CsvIO.cc:557-592 | one pass of the do-while over the spec's {variables}; errors are InvalidFormat or OutOfRange only |
| `CsvSpecs.FileNameWalkValue` | Source/meteoio/meteoio/plugins/CsvIO.cc:559-577 | a variable takes the file name's text up to the first occurrence of the constant that follows it |
| `CsvSpecs.FileNameWalkLast` | Source/meteoio/meteoio/plugins/CsvIO.cc:559-577 | a variable ending the spec takes the rest of the file name |
| `CsvSpecs.UnitActionAsWritten` | Source/meteoio/meteoio/plugins/CsvIO.cc:718-736 | the unit table with the lower-case "pc" test; "%" scales by 0.01 |
| `CsvSpecs.UnitActionOf` | Source/meteoio/meteoio/plugins/CsvIO.cc:718-736 | corrected table: "%", "PC" and "CM" scale by 0.01, the Celsius names shift by the freezing point, F is the affine Fahrenheit conversion, empty and SI units are left alone |
| `CsvSpecs.PercentAliasUnreachable` | Source/meteoio/meteoio/plugins/CsvIO.cc:718-724 | an upper-cased unit is never "pc", so as written the alias is unrecognised while the corrected table scales it |
| `CsvSpecs.UnitTablesAgree` | Source/meteoio/meteoio/plugins/CsvIO.cc:718-736 | the two tables agree on every unit but the percent alias |
| `CsvSpecs.Resize` | Source/meteoio/meteoio/plugins/CsvIO.cc:714-715 | std::vector::resize: the new length, old entries kept, new ones the default |
| `CsvSpecs.FoundKeys` | Source/meteoio/meteoio/plugins/CsvIO.cc:881-887 | the (first position, slot) pairs of the keys found in the spec, sorted by position, one per slot |
| `CsvSpecs.SlotOrder` | Source/meteoio/meteoio/plugins/CsvIO.cc:881-891 | the slots of the found keys, each once, in the order of their first position in the spec, and exactly the found keys |
| `CsvSpecs.InsertByPos` | Source/meteoio/meteoio/plugins/CsvIO.cc:889 | inserting a key into the list ordered by spec position keeps it ordered with distinct slots, one longer, holding exactly the old entries and the new one |
| `CsvSpecs.DateKeyPositionsDistinct` | Source/meteoio/meteoio/plugins/CsvIO.cc:878-891 | two different date keys never start at the same position, so the sort by position meets no ties |
| `CsvSpecs.TzReplaced` | Source/meteoio/meteoio/plugins/CsvIO.cc:894-900 | no TZ leaves the spec unchanged; a TZ is accepted only as the last two characters and becomes a %32s conversion; elsewhere it is an InvalidFormat |
| `CsvSpecs.DecimalKindOf` | Source/meteoio/meteoio/plugins/CsvIO.cc:944-963 | a recognised type is the one whose name equals the upper-cased input; an unknown name is an InvalidArgument |
| `CsvSpecs.DecimalKindRoundTrip` | Source/meteoio/meteoio/plugins/CsvIO.cc:944-963 | every decimal type is recognised from its name in any letter case |
| `CsvSpecs.CreateDate` | Source/meteoio/meteoio/plugins/CsvIO.cc:972-981 | undefined exactly when one of year..minute is not a whole number; otherwise the date of those components, seconds and time zone |
| `CsvSpecs.RoleOf` | Source/meteoio/meteoio/plugins/CsvIO.cc:613-662 | the date/time and ID roles of a cleaned column name; an empty or other name is a data column |
| `CsvParams.MaxCol` | Source/meteoio/meteoio/plugins/CsvIO.cc:321-334 | at least the previous maximum and every set column, and equal to one of them |
| `CsvParams.IncompleteLayouts` | Source/meteoio/meteoio/plugins/CsvIO.cc:350-367 | no columns, a date string alone, or date components without a time are not a complete layout; a day of year with an hour column is complete exactly when a fallback year is set |
| `CsvParams.FixedYear` | Source/meteoio/meteoio/plugins/CsvIO.cc:336-348 | the wrap can only be switched off, never on |
| `CsvParams.YearsOfMonths` | Source/meteoio/meteoio/plugins/CsvIO.cc:343-348 | one year per month read, in order |
| `CsvParams.YearsOfMonthsWrap` | Source/meteoio/meteoio/plugins/CsvIO.cc:343-348 | with auto-wrap, the k-th date gets the fallback year minus one exactly when it and every earlier date are from October on |
| `CsvParams.CsvDateTime.constructor` | Source/meteoio/meteoio/plugins/CsvIO.h:34 | every column npos, maximum column 0, no fallback year, Julian decimal dates, auto-wrap on |
| `CsvParams.CsvDateTime.UpdateMaxCol` | Source/meteoio/meteoio/plugins/CsvIO.cc:321-334 | the maximum column becomes MaxCol over the set columns; nothing else changes |
| `CsvParams.CsvDateTime.GetFixedYearJdn` | Source/meteoio/meteoio/plugins/CsvIO.cc:336-341 | a day of year below 273 switches the wrap off; the year returned and the new wrap are FixedYear's |
| `CsvParams.CsvDateTime.GetFixedYearMonth` | Source/meteoio/meteoio/plugins/CsvIO.cc:343-348 | a month below 10 switches the wrap off; the year returned and the new wrap are FixedYear's |
| `CsvParams.CellOf` | Source/meteoio/meteoio/plugins/CsvIO.cc:1172-1174 | a cell is read only for a set column inside the row; an npos or too large index is undefined behaviour |
| `CsvParams.ComponentInt` | Source/meteoio/meteoio/plugins/CsvIO.cc:1131-1139 | an absent column reads as 0; a present one succeeds exactly when its text converts; an index past the row is undefined |
| `CsvParams.ComponentReal` | Source/meteoio/meteoio/plugins/CsvIO.cc:1141-1149 | the same for a double component |
| `CsvParams.FixYear` | Source/meteoio/meteoio/plugins/CsvIO.cc:1164 | a read year, or no fallback year, is kept; a missing year (0) takes getFixedYear |
| `CsvParams.Place` | Source/meteoio/meteoio/plugins/CsvIO.cc:988-1020 | the scanned values are written at their slots (plus the offset of 3 for time), defined exactly when every slot is inside the six arguments |
| `CsvParams.PlaceDistinct` | Source/meteoio/meteoio/plugins/CsvIO.cc:988-1020 | with distinct slots every value lands in its slot and the other arguments keep their values |
| `CsvParams.Scan` | Source/meteoio/meteoio/plugins/CsvIO.cc:990-1016 | a successful sscanf yields exactly n values; a short read leaves the date undefined |
| `CsvParams.StringDate` | Source/meteoio/meteoio/plugins/CsvIO.cc:983-1026 | a date read from a date and a time string is a component date (createDate) |
| `CsvParams.Rest` | Source/meteoio/meteoio/plugins/CsvIO.cc:986-1024 | the shared `rest` buffer holds the time scan's zone text when that scan reached its %32s, and the date scan's otherwise |
| `CsvParams.StringDateZoneCarried` | Source/meteoio/meteoio/plugins/CsvIO.cc:986-1025 | DATE_SPEC `YYYY-MM-DD TZ` with TIME_SPEC `HH24:MI TZ` on `2020-01-01 +01` and `12:00` gives 2020-01-01 12:00 in the zone of `+01`, carried over from the date scan |
| `CsvParams.DecimalDate` | Source/meteoio/meteoio/plugins/CsvIO.cc:1102-1129 | a decimal date is a Unix time exactly for the UNIX type; otherwise it carries the configured type and the file's time zone |
| `CsvParams.ComponentsDate` | Source/meteoio/meteoio/plugins/CsvIO.cc:1158-1170 | a component date in the file's time zone; the wrap is only switched off |
| `CsvParams.ComponentsRest` | Source/meteoio/meteoio/plugins/CsvIO.cc:1165-1170 | the date keeps the year and month already read |
| `CsvParams.AsReal` | Source/meteoio/meteoio/plugins/CsvIO.cc:1066-1073 | an integer component read as a double keeps its value and its failure |
| `CsvParams.JdnDate` | Source/meteoio/meteoio/plugins/CsvIO.cc:1028-1100 | parseJdnDate yields a year and day-of-year date; the wrap is only switched off |
| `CsvParams.JdnWithTimeString` | Source/meteoio/meteoio/plugins/CsvIO.cc:1031-1061 | the time of day read from the time string, the year kept |
| `CsvParams.JdnWithNumericTime` | Source/meteoio/meteoio/plugins/CsvIO.cc:1064-1074 | the hhmm time of day added to the day of year, the year kept, in the file's time zone |
| `CsvParams.JdnWithComponents` | Source/meteoio/meteoio/plugins/CsvIO.cc:1077-1088 | hour, minute and second columns added to the day of year, in the file's time zone |
| `CsvParams.ParseDateOf` | Source/meteoio/meteoio/plugins/CsvIO.cc:1151-1176 | component layouts give a day-of-year date exactly when the day of year is used; string layouts give component dates; the wrap is only touched by component layouts |
| `CsvParams.ComponentsFallbackYear` | Source/meteoio/meteoio/plugins/CsvIO.cc:1162-1164 | with a fallback year and no year column, the date is in the fallback year minus one exactly while the wrap stays on, and it stays on only for months from October on |
| `CsvParams.RolesOf` | Source/meteoio/meteoio/plugins/CsvIO.cc:605-665 | one role per cleaned name |
| `CsvParams.ApplyRole` | Source/meteoio/meteoio/plugins/CsvIO.cc:611-662 | a data column changes nothing; any role keyword is skipped; components, day-of-year and ID flags and the date string column are set as parseFields sets them |
| `CsvParams.RolesSkipped` | Source/meteoio/meteoio/plugins/CsvIO.cc:605-665 | exactly the role-keyword columns join the skipped fields, and none is removed |
| `CsvParams.LastDateColumn` | Source/meteoio/meteoio/plugins/CsvIO.cc:613-624 | the last DATE column named is the date string column |
| `CsvParams.UnderscoreBlanks` | Source/meteoio/meteoio/plugins/CsvIO.cc:609-610 | no blank is left in the name |
| `CsvParams.NormalizeName` | Source/meteoio/meteoio/plugins/CsvIO.cc:607-610 | a cleaned column name holds no blank |
| `CsvParams.NormalizedAll` | Source/meteoio/meteoio/plugins/CsvIO.cc:605-610 | every name cleaned, in order |
| `CsvParams.CsvParameters.constructor` | Source/meteoio/meteoio/plugins/CsvIO.h:62 | empty lists, npos columns, cleared flags, nodata metadata and the given time zone |
| `CsvParams.CsvParameters.SetDelimiter` | Source/meteoio/meteoio/plugins/CsvIO.cc:423-433 | the delimiter is DelimiterOf's when accepted and unchanged otherwise; no other field is written |
| `CsvParams.CsvParameters.SetHeaderDelimiter` | Source/meteoio/meteoio/plugins/CsvIO.cc:435-445 | the header delimiter is DelimiterOf's when accepted and unchanged otherwise; no other field is written |
| `CsvParams.CsvParameters.SetSkipFields` | Source/meteoio/meteoio/plugins/CsvIO.cc:413-421 | an error exactly when a 0 occurs; the columns before it are added 0-based to the skipped fields; no other field is written |
| `CsvParams.ClassifyUnits` | Source/meteoio/meteoio/plugins/CsvIO.cc:717-738 | corrected in its `pc` handling: each entry becomes its upper-cased, unquoted unit's conversion of the entry it had; exactly the unrecognised units are returned |
| `CsvParams.CsvParameters.SetUnits` | Source/meteoio/meteoio/plugins/CsvIO.cc:706-740 | corrected in its `pc` handling: both lists resized to the number of units, each entry the conversion of its unit or the resized default; the unrecognised units returned |
| `CsvParams.CsvParameters.SetDateTimeSpec` | Source/meteoio/meteoio/plugins/CsvIO.cc:878-910 | the spec state becomes DateSpecApplied's: the found date keys appended in order of position; a misplaced TZ is an InvalidFormat that keeps the raw spec; otherwise the format with the keys replaced by conversions, the zone flag, and an InvalidFormat exactly when the format fails the spec check; the time slots untouched |
| `CsvParams.CsvParameters.SetTimeSpec` | Source/meteoio/meteoio/plugins/CsvIO.cc:912-942 | the spec state becomes TimeSpecApplied's: nothing for an empty spec; otherwise the same for the time keys; the date slots untouched |
| `CsvParams.CsvParameters.SetDecimalDateType` | Source/meteoio/meteoio/plugins/CsvIO.cc:944-963 | a known type is stored and turns the decimal layout on; an unknown one is an InvalidArgument and changes nothing; no other field is written |
| `CsvParams.CsvParameters.SetFixedYear` | Source/meteoio/meteoio/plugins/CsvIO.cc:965-969 | the fallback year and the wrap flag set; no other field is written |
| `CsvParams.CsvParameters.ParseSpecialHeaders` | Source/meteoio/meteoio/plugins/CsvIO.cc:506-537 | corrected in its PARAM value (via AssignMetadata): the metadata becomes the result of applying the line's header entries, or the walk's error is returned and nothing changes; only the metadata and position are written |
| `CsvParams.CsvParameters.ParseFileName` | Source/meteoio/meteoio/plugins/CsvIO.cc:540-594 | corrected in its PARAM value (via AssignMetadata): the metadata becomes the result of applying the file name's entries, or the walk's error is returned and nothing changes; only the metadata and position are written |
| `CsvParams.CsvParameters.ParseDate` | Source/meteoio/meteoio/plugins/CsvIO.cc:1151-1176 | the date and the new wrap flag are ParseDateOf's on the configuration before the call; only the wrap flag is written |
| `CsvParams.CsvParameters.GetStation` | Source/meteoio/meteoio/plugins/CsvIO.cc:1178-1184 | the station carries the location, ID and name; the slope is set when flat or when slope and azimuth are both known |
| `CsvParams.CsvParameters.ParseFields` | Source/meteoio/meteoio/plugins/CsvIO.cc:598-702 | no names at all is an InvalidArgument that changes nothing; otherwise the roles are RolesUpTo over the cleaned names, and the result is exactly: UnknownValue for an incomplete layout, InvalidArgument for components with a single parameter, the default spec's InvalidFormat, InvalidArgument for a single parameter in header names with an ID column, and success in every other case; the spec state is DefaultSpecs' once the roles are accepted and untouched before; each field is its cleaned name or the single parameter, at its index when that fits; only the role, field and spec slots are written |
| `CsvParams.CsvParameters.ParseNames` | Source/meteoio/meteoio/plugins/CsvIO.cc:604-702 | with the names known, the same outcome as ParseFields: roles, exact result by error kind, spec state and fields |
| `CsvParams.CsvParameters.CompleteFields` | Source/meteoio/meteoio/plugins/CsvIO.cc:673-700 | the spec state is DefaultSpecs' and the result is its error, else InvalidArgument exactly for a single parameter in header names with an ID column, else success; only fields replaced by the single parameter change, at its index when that fits; user names, or any failure, leave the fields alone |
| `CsvParams.CsvParameters.RecordFields` | Source/meteoio/meteoio/plugins/CsvIO.cc:605-671 | the cleaned names and the roles RolesUpTo gives are stored and the maximum column updated; the result is exactly UnknownValue for an incomplete layout, InvalidArgument for components with a single parameter, success otherwise; only the role and field slots are written |
| `CsvParams.CsvParameters.SetRoles` | Source/meteoio/meteoio/plugins/CsvIO.cc:605-666 | the fields and the roles (skipped columns, ID column, date columns, flags) are those given, the maximum column is MaxCol over them; nothing else is written |
| `CsvParams.CsvParameters.ClassifyFields` | Source/meteoio/meteoio/plugins/CsvIO.cc:605-665 | the loop yields the cleaned names and RolesUpTo over their roles |
| `CsvParams.CsvParameters.SetDefaultSpecs` | Source/meteoio/meteoio/plugins/CsvIO.cc:673-684 | the spec state and result are DefaultSpecs' on the old spec state, the date columns and the decimal flag; only the spec slots are written |
| `CsvParams.CsvParameters.SetCombinedDefault` | Source/meteoio/meteoio/plugins/CsvIO.cc:675-677 | the spec state and result are CombinedDefault's: the ISO default applied when no date spec was given, otherwise nothing changes and it succeeds |
| `CsvParams.CsvParameters.SetSeparateDefaults` | Source/meteoio/meteoio/plugins/CsvIO.cc:679-682 | the spec state and result are SeparateDefaults': `YYYY-MM-DD` for a date column without a date spec, then, unless that failed, the time default for a time column without a time spec |
| `CsvParams.DefaultSpecsSlots` | Source/meteoio/meteoio/plugins/CsvIO.cc:673-684 | nothing for a decimal date; a given date or time spec is kept; a shared column keeps the time slots; a missing spec gets the slots of the ISO default, of `YYYY-MM-DD` or of the time default; the only error is InvalidFormat |
| `CsvParams.DateSpecSlots` | Source/meteoio/meteoio/plugins/CsvIO.cc:878-910 | setDateTimeSpec appends the spec's slots, leaves the time slots alone and fails only with InvalidFormat |
| `CsvParams.TimeSpecSlots` | Source/meteoio/meteoio/plugins/CsvIO.cc:912-942 | setTimeSpec appends the spec's slots, changes nothing for an empty spec, leaves the date slots alone and fails only with InvalidFormat |
| `CsvParams.CsvParameters.PlaceSingleField` | Source/meteoio/meteoio/plugins/CsvIO.cc:688-700 | only fields replaced by the single parameter change, and a user index that fits places it there |
| `CsvRead.ClassifyCell` | Source/meteoio/meteoio/plugins/CsvIO.cc:1534-1543 | an empty cell or the nodata marker, bare or quoted, is left unset; NAN and NULL set nodata; anything else is a number exactly when it converts |
| `CsvRead.Scaled` | Source/meteoio/meteoio/plugins/CsvIO.cc:1553-1554 | nodata stays nodata; without units the value is unchanged; with both, multiplier then offset, the offset skipped when the product is nodata |
| `CsvRead.Template` | Source/meteoio/meteoio/plugins/CsvIO.cc:1401-1413 | every field not skipped is a parameter at nodata, and no other |
| `CsvRead.FillFrom` | Source/meteoio/meteoio/plugins/CsvIO.cc:1529-1557 | a record keeps exactly the template's parameters; in silent or errors-to-nodata mode only undefined behaviour fails; a record is dropped only in silent mode after an unreadable cell |
| `CsvRead.AssignCell` | Source/meteoio/meteoio/plugins/CsvIO.cc:1542-1555 | the same for one cell converted, scaled and stored |
| `CsvRead.FillRecord` | Source/meteoio/meteoio/plugins/CsvIO.cc:1529-1557 | the cell loop returns FillFrom's result from the template |
| `CsvRead.FillCell` | Source/meteoio/meteoio/plugins/CsvIO.cc:1532-1556 | one iteration either ends with FillFrom's result or leaves FillFrom's result unchanged from the next cell |
| `CsvRead.LineStep` | Source/meteoio/meteoio/plugins/CsvIO.cc:1475-1558 | each line consumes at least itself, a header-repeat marker also the header lines; a record is in the window with the template's parameters; the wrap is only switched off; silent errors without an ID column fail only on undefined behaviour |
| `CsvRead.CellsStep` | Source/meteoio/meteoio/plugins/CsvIO.cc:1488-1557 | the ID filter, the cell count and the date of a split line, with the same guarantees |
| `CsvRead.DatedStep` | Source/meteoio/meteoio/plugins/CsvIO.cc:1521-1557 | a record keeps the line's date, lies in the window and holds the template's parameters |
| `CsvRead.ReadRecords` | Source/meteoio/meteoio/plugins/CsvIO.cc:1475-1558 | the records already read are kept in order ahead of the new ones, and every record lies in the window with the template's parameters |
| `CsvRead.SilentReadErrors` | Source/meteoio/meteoio/plugins/CsvIO.cc:1508-1515 | with silent errors and no station ID column, only undefined behaviour stops a read |
| `CsvRead.ReadWrapMonotone` | Source/meteoio/meteoio/plugins/CsvIO.cc:1475-1558 | reading never turns the auto-wrap back on |
| `CsvRead.ReadFromStep` | Source/meteoio/meteoio/plugins/CsvIO.cc:1475-1558 | a failing line ends the read with its error, a stop line with the records so far, any other line continues after the lines it consumed |
| `CsvRead.Reverse` | Source/meteoio/meteoio/plugins/CsvIO.cc:1560 | std::reverse: the same records in the opposite order |
| `CsvRead.ConfigOf` | Source/meteoio/meteoio/plugins/CsvIO.cc:1431-1472 | an empty ID filter means the station's own ID; the fields, skipped columns and order are the parameters' |
| `CsvRead.ReadLine` | Source/meteoio/meteoio/plugins/CsvIO.cc:1476-1558 | one line's step is LineStep's, and the date columns change only in the auto-wrap flag |
| `CsvRead.ReadCells` | Source/meteoio/meteoio/plugins/CsvIO.cc:1488-1558 | one split line's step is CellsStep's, and the date columns change only in the auto-wrap flag |
| `CsvRead.ReadDated` | Source/meteoio/meteoio/plugins/CsvIO.cc:1521-1557 | a dated line's effect is DatedStep's |
| `CsvRead.ReadCsvFile` | Source/meteoio/meteoio/plugins/CsvIO.cc:1428-1563 | units lists that do not match the fields are an InvalidFormat; otherwise the records of ReadFrom, reversed for a descending file |
| `CsvRead.ReadLines` | Source/meteoio/meteoio/plugins/CsvIO.cc:1475-1558 | the line loop returns ReadFrom's records and leaves its wrap flag |
| `Grib.DefaultTable` | Source/meteoio/meteoio/plugins/GRIBFile.cc:31-40 | the known parameters are exactly the keys of the three default tables; IDs are LONG, indexed by paramId and typeOfLevel |
| `Grib.AddKnown` | Source/meteoio/meteoio/plugins/GRIBFile.cc:53-61 | the name joins the known parameters |
| `Grib.AddKnownFacts` | Source/meteoio/meteoio/plugins/GRIBFile.cc:53-61 | the added name is present with an empty ID and npos level in every table, the others keep their entries, and no other key appears |
| `Grib.InitKnown` | Source/meteoio/meteoio/plugins/GRIBFile.cc:52-71 | every MeteoData and MeteoGrids name becomes known |
| `Grib.InitKnownFacts` | Source/meteoio/meteoio/plugins/GRIBFile.cc:52-71 | after init_known_params every name is blank in every table and the keys of every table are still exactly the known parameters |
| `Grib.InitKnownAppend` | Source/meteoio/meteoio/plugins/GRIBFile.cc:52-71 | the two loops over MeteoData then MeteoGrids names are one loop over both lists |
| `Grib.IndexLine` | Source/meteoio/meteoio/plugins/GRIBFile.cc:100-117 | a line is an index line exactly when it starts with "index"; it needs three values (else InvalidFormat), and the keys become the other two |
| `Grib.TypeOf` | Source/meteoio/meteoio/plugins/GRIBFile.cc:119-146 | double, string and long are the only type names |
| `Grib.TypeLine` | Source/meteoio/meteoio/plugins/GRIBFile.cc:119-146 | a line is a type line exactly when it starts with "paramIdType"; it needs two values and a known type name (else InvalidFormat), and the type becomes the named one |
| `Grib.StoreId` | Source/meteoio/meteoio/plugins/GRIBFile.cc:173-189 | an ID that does not convert to the current type is an InvalidArgument; only the table of the current type changes |
| `Grib.ParamLine` | Source/meteoio/meteoio/plugins/GRIBFile.cc:148-193 | a parameter line needs four values (else InvalidFormat), a known name and an integer level (else InvalidArgument); the known set and the type are kept |
| `Grib.ApplyLine` | Source/meteoio/meteoio/plugins/GRIBFile.cc:83-97 | an empty, comment or blank-led line is skipped; no line changes the known parameters |
| `Grib.ReadLines` | Source/meteoio/meteoio/plugins/GRIBFile.cc:74-98 | reading the table never changes the known parameters |
| `Grib.IndexesOf` | Source/meteoio/meteoio/plugins/GRIBFile.cc:196-198 | the parameter key, then the level key |
| `Grib.ParamIdOf` | Source/meteoio/meteoio/plugins/GRIBFile.cc:200-216 | an unknown name is out of range (std::map::at) |
| `Grib.LevelTypeOf` | Source/meteoio/meteoio/plugins/GRIBFile.cc:218 | defined exactly for the names in the level type table; otherwise out of range |
| `Grib.LevelNoOf` | Source/meteoio/meteoio/plugins/GRIBFile.cc:220 | defined exactly for the names in the level number table; otherwise out of range |
| `Grib.ParamIdSlots` | Source/meteoio/meteoio/plugins/GRIBFile.cc:200-216 | getParamId fills exactly the output of the current type and leaves the other two empty or npos |
| `Grib.DefaultTableQueries` | Source/meteoio/meteoio/plugins/libcodes.cc:86-118 | the default table answers the three getters exactly for its own parameters, with the LONG default IDs |
| `Grib.ApplyLineExact` | Source/meteoio/meteoio/plugins/GRIBFile.cc:83-97 | a line never adds an unknown key to a table, nor removes one |
| `Grib.ReadLinesExact` | Source/meteoio/meteoio/plugins/GRIBFile.cc:74-98 | reading a whole file keeps every table's keys exactly the known parameters |
| `Grib.FileTableExact` | Source/meteoio/meteoio/plugins/GRIBFile.cc:44-50 | a table read from a file has exactly the MeteoData and MeteoGrids names as keys in every table |
| `Grib.FileTableQueries` | Source/meteoio/meteoio/plugins/GRIBFile.cc:44-50 | such a table answers the three getters exactly for those names, whatever its lines say |
| `Grib.ExactQueries` | Source/meteoio/meteoio/plugins/GRIBFile.cc:200-220 | a table with exactly the known keys answers the getters exactly for the known parameters |
| `Grib.ParamLineQueries` | Source/meteoio/meteoio/plugins/GRIBFile.cc:148-220 | what a parameter line stores is what the getters then return for that name, in the current type; other names are untouched |
| `Grib.IndexLineQueries` | Source/meteoio/meteoio/plugins/GRIBFile.cc:100-117 | an index line sets what getIndexes returns and leaves the IDs and levels alone |
| `Grib.MalformedLines` | Source/meteoio/meteoio/plugins/GRIBFile.cc:100-193 | a short or long index line and a bad type line are InvalidFormat; a four-value line for an unknown name is an InvalidArgument |
| `Grib.ReadAfter` | Source/meteoio/meteoio/plugins/GRIBFile.cc:83-97 | reading stops at the first error |
| `Grib.ReadLinesAppend` | Source/meteoio/meteoio/plugins/GRIBFile.cc:83-97 | reading a file in two parts is reading it at once |
| `Grib.ReadLinesStep` | Source/meteoio/meteoio/plugins/GRIBFile.cc:83-97 | one iteration of the line loop |
| `Grib.GribTable.constructor` | Source/meteoio/meteoio/plugins/GRIBFile.cc:31-40 | the state is the default table |
| `Grib.GribTable.FromNames` | Source/meteoio/meteoio/plugins/GRIBFile.cc:44-48 | the state is the empty table after init_known_params over both name lists |
| `Grib.GribTable.InitKnownParams` | Source/meteoio/meteoio/plugins/GRIBFile.cc:52-71 | the state is InitKnown over the MeteoData then the MeteoGrids names |
| `Grib.GribTable.AddKnownParams` | Source/meteoio/meteoio/plugins/GRIBFile.cc:53-61 | the state is InitKnown over the names |
| `Grib.GribTable.AddKnownParam` | Source/meteoio/meteoio/plugins/GRIBFile.cc:54-60 | the state is AddKnown of the name |
| `Grib.GribTable.ParseIndexing` | Source/meteoio/meteoio/plugins/GRIBFile.cc:100-117 | true and the new keys for an index line, false and no change for another line, InvalidFormat for a malformed one |
| `Grib.GribTable.ParseParamType` | Source/meteoio/meteoio/plugins/GRIBFile.cc:119-146 | true and the new type for a type line, false and no change for another line, InvalidFormat for a malformed one |
| `Grib.GribTable.FillParameterTables` | Source/meteoio/meteoio/plugins/GRIBFile.cc:148-193 | the state becomes ParamLine's, or its error is returned |
| `Grib.GribTable.ReadTable` | Source/meteoio/meteoio/plugins/GRIBFile.cc:74-98 | the state becomes ReadLines's, or its error is returned |
| `Grib.GribTable.GetIndexes` | Source/meteoio/meteoio/plugins/GRIBFile.cc:196-198 | the indexes of the current state |
| `Grib.GribTable.GetParamId` | Source/meteoio/meteoio/plugins/GRIBFile.cc:200-216 | ParamIdOf on the current state |
| `Grib.GribTable.GetLevelType` | Source/meteoio/meteoio/plugins/GRIBFile.cc:218 | LevelTypeOf on the current state |
| `Grib.GribTable.GetLevelNo` | Source/meteoio/meteoio/plugins/GRIBFile.cc:220 | LevelNoOf on the current state |
| `Grib.InsertDate` | Source/meteoio/meteoio/plugins/GRIBFile.cc:285 | std::set<Date>::insert keeps the dates increasing, adds the date, loses none |
| `Grib.FirstGrid` | Source/meteoio/meteoio/plugins/GRIBFile.cc:273-279 | non-empty exactly when some message has grid parameters |
| `Grib.ValidityFrom` | Source/meteoio/meteoio/plugins/GRIBFile.cc:265-289 | errors are InvalidFormat; the kept timepoints are increasing |
| `Grib.ValidityFromMeaning` | Source/meteoio/meteoio/plugins/GRIBFile.cc:265-293 | the loop invariant: the grid is the first non-empty one so far, the timepoints are the dates so far and the (date, paramId) pairs so far are distinct |
| `Grib.FirstGridAppend` | Source/meteoio/meteoio/plugins/GRIBFile.cc:274-279 | the first non-empty grid is kept once found |
| `Grib.ValidityMeaning` | Source/meteoio/meteoio/plugins/GRIBFile.cc:257-294 | accepted exactly when there are messages, no (date, paramId) pair repeats and some grid is non-empty; no messages is an AccessError; the first grid and every date, increasing, are kept |
| `Grib.ValidityOfDecodedGrids` | Source/meteoio/meteoio/plugins/libcodes.cc:334-376 | grids as getGridParameters returns them are never empty, so acceptance is: messages and no repeated pair |
| `Grib.GribFile.constructor` | Source/meteoio/meteoio/plugins/GRIBFile.cc:250-251 | no grid parameters and no timepoints |
| `Grib.GribFile.CheckValidity` | Source/meteoio/meteoio/plugins/GRIBFile.cc:257-294 | errors exactly as Validity; on success the grid and timepoints are Validity's |
| `Grib.GribFile.IsValidDate` | Source/meteoio/meteoio/plugins/GRIBFile.h:102-104 | true exactly for a timepoint of the file |
| `Grib.GribFile.GetDates` | Source/meteoio/meteoio/plugins/GRIBFile.h:110-112 | the timepoints |
| `Grib.GribFile.GetStartDate` | Source/meteoio/meteoio/plugins/GRIBFile.h:114-116 | the smallest timepoint; an empty set is undefined behaviour |
| `Codes.ToInt32` | Source/meteoio/meteoio/plugins/libcodes.cc:222 | static_cast<int>: a 32-bit value congruent to the long modulo 2^32, the long itself when it fits |
| `Codes.GetDouble` | Source/meteoio/meteoio/plugins/libcodes.cc:179-192 | a failed read aborts when asked to throw and reports false otherwise; a read value is kept, the missing double becoming nodata |
| `Codes.GetLong` | Source/meteoio/meteoio/plugins/libcodes.cc:193-206 | the same for a long, the missing long becoming nodata |
| `Codes.GetIntAsWritten` | Source/meteoio/meteoio/plugins/libcodes.cc:208-224 | as written: a read value is always cast to int, the nodata assigned for a missing value overwritten |
| `Codes.GetIntMissingIsNotNodata` | Source/meteoio/meteoio/plugins/libcodes.cc:218-222 | as written the missing long comes out as 2147483647, where the long overload gives nodata |
| `Codes.GetInt` | Source/meteoio/meteoio/plugins/libcodes.cc:208-224 | corrected: failures as the other overloads; a missing value is nodata |
| `Codes.GetIntIsNarrowedLong` | Source/meteoio/meteoio/plugins/libcodes.cc:193-224 | the corrected int read fails, is absent and is present exactly when the long read is, with the long narrowed to 32 bits |
| `Codes.SubsetPrefix` | Source/meteoio/meteoio/plugins/libcodes.cc:301-306 | empty exactly for subset 0; otherwise "/subsetNumber=" and the number and a closing '/' |
| `Codes.SubsetPrefixRoundTrip` | Source/meteoio/meteoio/plugins/libcodes.cc:301-306 | the subset number can be read back from its prefix, so different subsets get different prefixes |
| `Codes.SplitValidityDateMeaning` | Source/meteoio/meteoio/plugins/libcodes.cc:287 | within the range of an int, the year, month and day give the YYYYMMDD value back, and a non-negative date has month and day below 100 |
| `Codes.SplitValidityDateInverse` | Source/meteoio/meteoio/plugins/libcodes.cc:287 | a date written as YYYYMMDD splits back into its year, month and day |
| `Codes.SplitValidityTimeMeaning` | Source/meteoio/meteoio/plugins/libcodes.cc:288 | within the range of an int, hours and minutes give the HHMM value back |
| `Codes.SplitValidityTimeInverse` | Source/meteoio/meteoio/plugins/libcodes.cc:288 | a time written as HHMM splits back into its hours and minutes |
| `Codes.GribDate` | Source/meteoio/meteoio/plugins/libcodes.cc:281-292 | a failed read of validityDate or validityTime aborts; otherwise the split date and time |
| `Codes.BufrDateKeys` | Source/meteoio/meteoio/plugins/libcodes.cc:310-319 | the year to second keys behind the subset prefix |
| `Codes.BufrDateOf` | Source/meteoio/meteoio/plugins/libcodes.cc:325-331 | undefined when any of year..minute is -1; to the minute when the second is -1; otherwise to the second; the fields are those read |
| `Codes.MandatoryInt` | Source/meteoio/meteoio/plugins/libcodes.cc:315 | a mandatory key read with the (corrected) int read, aborting when absent |
| `Codes.BufrMessageDate` | Source/meteoio/meteoio/plugins/libcodes.cc:309-332 | corrected in its int reads: aborts exactly when one of year..minute cannot be read; an unreadable second gives a date to the minute at most |
| `Codes.DoubleOr` | Source/meteoio/meteoio/plugins/libcodes.cc:341-350 | a key read with nothrow falls back to its default |
| `Codes.GridParameters` | Source/meteoio/meteoio/plugins/libcodes.cc:334-376 | exactly the grid keys; the northern pole is the antipode of the southern one; a failed read of a mandatory key aborts |
| `Codes.UnrotatedGrid` | Source/meteoio/meteoio/plugins/libcodes.cc:341-353 | without rotation keys the angle is 0, the southern pole at (-90, 0) and the northern at (90, 180) |
| `Codes.IndexingString` | Source/meteoio/meteoio/plugins/libcodes.cc:141-147 | the loop builds JoinKeys of the keys |
| `Codes.JoinKeysSplit` | Source/meteoio/meteoio/plugins/libcodes.cc:140-147 | for non-empty keys without commas, the index string splits back into the keys |
| `Codes.LeadingEmptyKey` | Source/meteoio/meteoio/plugins/libcodes.cc:143-146 | an empty first key leaves no separator |
| `OshdFiles.MatchFilename` | Source/meteoio/meteoio/plugins/OshdIO.cc:211-223 | a match yields two twelve-digit groups, the time step and the run, taken from the name |
| `OshdFiles.MatchFilenameComplete` | Source/meteoio/meteoio/plugins/OshdIO.cc:209-211 | every COSMODATA_{12 digits}_C1EFC_{12 digits}.mat name matches, with its two groups |
| `OshdFiles.CandidateOf` | Source/meteoio/meteoio/plugins/OshdIO.cc:219-223 | a directory entry is a candidate exactly when its file name matches |
| `OshdFiles.CandidateWellFormed` | Source/meteoio/meteoio/plugins/OshdIO.cc:221-237 | a candidate carries the time step and run of its name, and its file_index the date those digits spell |
| `OshdFiles.Candidates` | Source/meteoio/meteoio/plugins/OshdIO.cc:218-223 | one candidate per listed entry, in order |
| `OshdFiles.CandidatesWellFormed` | Source/meteoio/meteoio/plugins/OshdIO.cc:218-237 | every candidate of a listing is well formed |
| `OshdFiles.LessDigits` | Source/meteoio/meteoio/plugins/OshdIO.cc:230 | for twelve-digit run dates, std::string's < is the order of the numbers |
| `OshdFiles.ScanStep` | Source/meteoio/meteoio/plugins/OshdIO.cc:225-244 | one entry keeps mapIdx a valid index of the files |
| `OshdFiles.Scan` | Source/meteoio/meteoio/plugins/OshdIO.cc:217-245 | the loop keeps mapIdx a valid index of the files |
| `OshdFiles.StepsSnoc` | Source/meteoio/meteoio/plugins/OshdIO.cc:218-223 | the time steps met grow by the matching entry's step |
| `OshdFiles.ScanStepInv` | Source/meteoio/meteoio/plugins/OshdIO.cc:225-244 | one entry keeps the scan invariant: one position per step met, each file at the position of its own step, holding the kept candidate of the step |
| `OshdFiles.ScanMeaning` | Source/meteoio/meteoio/plugins/OshdIO.cc:217-245 | after the loop, one file per time step met, holding the candidate of the most recent run (the last of equally recent ones) |
| `OshdFiles.ScanDistinct` | Source/meteoio/meteoio/plugins/OshdIO.cc:217-245 | the files found hold different dates |
| `OshdFiles.ScanRuns` | Source/meteoio/meteoio/plugins/OshdIO.cc:217-245 | every file found carries a twelve-digit run date |
| `OshdFiles.InsertMultiset` | Source/meteoio/meteoio/plugins/OshdIO.cc:247 | insertion keeps every file and adds the new one |
| `OshdFiles.InsertSorted` | Source/meteoio/meteoio/plugins/OshdIO.cc:247 | insertion into files sorted by date keeps them sorted |
| `OshdFiles.InsertStrict` | Source/meteoio/meteoio/plugins/OshdIO.cc:247 | insertion of a new date into strictly sorted files keeps them strictly sorted |
| `OshdFiles.SortFacts` | Source/meteoio/meteoio/plugins/OshdIO.cc:247 | std::sort by date is a permutation and sorts by date |
| `OshdFiles.SortStrict` | Source/meteoio/meteoio/plugins/OshdIO.cc:247 | files of distinct dates come out strictly increasing |
| `OshdFiles.ScanSorted` | Source/meteoio/meteoio/plugins/OshdIO.cc:205-249 | scanMeteoPath gives one file per time step of the listing, the kept one of that step, and only those, in strictly increasing date order |
| `OshdFiles.ScanMeteoPath` | Source/meteoio/meteoio/plugins/OshdIO.cc:207-249 | the loop and the sort return the sorted scan of the listing's candidates |
| `OshdFiles.IntervalFrom` | Source/meteoio/meteoio/plugins/OshdIO.cc:275-279 | the first interval [date(idx-1), date(idx)) from idx on that holds the start date, and none before; None when none does |
| `OshdFiles.FileIdx` | Source/meteoio/meteoio/plugins/OshdIO.cc:269-284 | an empty cache is an InvalidArgument; otherwise a valid index |
| `OshdFiles.FileIdxSorted` | Source/meteoio/meteoio/plugins/OshdIO.cc:269-284 | on a sorted cache the index is the last file starting at or before the start date, or the first file when all start later |
| `OshdFiles.LastBelow` | Source/meteoio/meteoio/plugins/OshdIO.cc:275-279 | if the first file starts at or before the date and the k-th after it, some interval up to k holds the date |
| `OshdFiles.GetFileIdx` | Source/meteoio/meteoio/plugins/OshdIO.cc:269-284 | the loop returns FileIdx |
| `OshdFiles.BreakAt` | Source/meteoio/meteoio/plugins/OshdIO.cc:255-258 | the position of the first file not before start and dated after end, and no earlier file is one |
| `OshdFiles.List2DGrids` | Source/meteoio/meteoio/plugins/OshdIO.cc:251-267 | the dates not before start up to the break, each with every parameter of grids_map |
| `OshdFiles.ListedSorted` | Source/meteoio/meteoio/plugins/OshdIO.cc:251-267 | on a cache sorted by date, exactly the dates within [start, end] are listed |
| `OshdStations.LetterRun` | Source/meteoio/meteoio/plugins/OshdIO.cc:492 | the longest run of leading letters |
| `OshdStations.FirstDot` | Source/meteoio/meteoio/plugins/OshdIO.cc:492 | the position of the first '.', or the length |
| `OshdStations.ParseAcro` | Source/meteoio/meteoio/plugins/OshdIO.cc:492-499 | a match splits the acronym into a provider of letters, a '.', a name of letters and a number of digits |
| `OshdStations.ParseAcroComplete` | Source/meteoio/meteoio/plugins/OshdIO.cc:492-499 | every acronym of that shape matches, with the groups it was built from |
| `OshdStations.CleanAcroCases` | Source/meteoio/meteoio/plugins/OshdIO.cc:499-510 | MCH stations numbered 2 become *name and numbered 1 #name, other MCH stations keep their acronym, other providers lose the provider prefix |
| `OshdStations.CleanAcroUnmatched` | Source/meteoio/meteoio/plugins/OshdIO.cc:497-499 | an acronym without that shape is kept as it is |
| `OshdStations.FirstPos` | Source/meteoio/meteoio/plugins/OshdIO.cc:513-518 | the first requested station with the ID, and no earlier one |
| `OshdStations.AssignFrom` | Source/meteoio/meteoio/plugins/OshdIO.cc:513-519 | the inner loop keeps the number of requested stations |
| `OshdStations.AssignAll` | Source/meteoio/meteoio/plugins/OshdIO.cc:496-520 | the outer loop keeps the number of requested stations |
| `OshdStations.LastMatch` | Source/meteoio/meteoio/plugins/OshdIO.cc:496-520 | the last acronym of the list whose cleaned form is the ID |
| `OshdStations.AssignFromMeaning` | Source/meteoio/meteoio/plugins/OshdIO.cc:513-519 | only the first requested station with the cleaned ID takes the position and the acronym; the others are unchanged |
| `OshdStations.Assigned` | Source/meteoio/meteoio/plugins/OshdIO.cc:496-520 | the station a request ends up pointing to keeps its ID |
| `OshdStations.AssignedSnoc` | Source/meteoio/meteoio/plugins/OshdIO.cc:496-520 | one more acronym changes only the first request of its cleaned ID |
| `OshdStations.AssignAllMeaning` | Source/meteoio/meteoio/plugins/OshdIO.cc:496-520 | the outer loop gives each request its Assigned station |
| `OshdStations.VecIdxMeaning` | Source/meteoio/meteoio/plugins/OshdIO.cc:485-527 | no request is an InvalidArgument; success exactly when the IDs are distinct and each is the cleaned form of some acronym (else NotFound); each request then holds the last such acronym and its position |
| `OshdStations.OshdIO.constructor` | Source/meteoio/meteoio/plugins/OshdIO.cc:148-150 | one request per configured ID, with no position and no acronym |
| `OshdStations.OshdIO.BuildVecIdx` | Source/meteoio/meteoio/plugins/OshdIO.cc:485-527 | the requests become AssignAll's, and the result and its error are VecIdx's |
| `OshdStations.OshdIO.AssignFirst` | Source/meteoio/meteoio/plugins/OshdIO.cc:513-519 | the requests become AssignFrom's for one acronym |
| `OshdStations.ConvertUnitsMeaning` | Source/meteoio/meteoio/plugins/OshdIO.cc:404-432 | unknown units are an IOError; known ones are the affine map of the unit onto SI |
| `OshdStations.CelsiusRoundTrip` | Source/meteoio/meteoio/plugins/OshdIO.cc:413-414 | a Celsius reading comes back from the converted value by subtracting the freezing point |
| `OshdStations.BareDegree` | Source/meteoio/meteoio/plugins/OshdIO.cc:415-417 | the bare degree sign is a temperature for TA, an angle for DW and unknown for any other parameter |
| `Json.StartAsWritten` | Source/meteoio/meteoio/plugins/JsonWrapper.cc:123-125 | as written, the key starts past a leading '$' and one more when the second character is '.', whatever the first |
| `Json.Start` | Source/meteoio/meteoio/plugins/JsonWrapper.cc:123-125 | corrected: the key starts after a leading "$." or "$" only |
| `Json.JoinKeys` | Source/meteoio/meteoio/plugins/JsonWrapper.cc:127-129 | the keys joined by '.' |
| `Json.SplitJoin` | Source/meteoio/meteoio/plugins/JsonWrapper.cc:127-129 | splitting a joined path, with or without "$.", gives back its first key and the rest of the path |
| `Json.JSONQuery` | Source/meteoio/meteoio/plugins/JsonWrapper.cc:150-176 | corrected in its path split: appends exactly the query's results to those given |
| `Json.QueryFollow` | Source/meteoio/meteoio/plugins/JsonWrapper.cc:150-176 | querying by a dotted path follows its keys through every member of that name, flattening arrays met before the last key |
| `Json.QueryFollowMembers` | Source/meteoio/meteoio/plugins/JsonWrapper.cc:163-175 | the member loop, in terms of the keys |
| `Json.QueryFollowEach` | Source/meteoio/meteoio/plugins/JsonWrapper.cc:166-168 | the array loop, in terms of the keys |
| `Json.SingleCharKeyLost` | Source/meteoio/meteoio/plugins/JsonWrapper.cc:124-125 | as written a one-character key after the first level ("b.c") is looked up as the empty key; corrected it is "b" |
| `Json.FirstMember` | Source/meteoio/meteoio/plugins/JsonWrapper.cc:131-138 | the first member with the key, and none before it; None when there is none |
| `Json.DeeperPathIsNull` | Source/meteoio/meteoio/plugins/JsonWrapper.cc:133-134 | as written any path with more than one key yields null |
| `Json.GoToNestedExample` | Source/meteoio/meteoio/plugins/JsonWrapper.cc:118-141 | "$.a.bb" on {"a": {"bb": 1}} is null as written and 1 corrected |
| `Json.FollowMembersGrow` | Source/meteoio/meteoio/plugins/JsonWrapper.cc:131-138 | a member's contribution stays among the results of the later members |
| `Json.GoToInQuery` | Source/meteoio/meteoio/plugins/JsonWrapper.cc:118-176 | a non-null goToJSONPath value is one of JSONQuery's results for the same path |
| `Json.GoToFollow` | Source/meteoio/meteoio/plugins/JsonWrapper.cc:118-141 | a non-null goToJSONPath value is reached by following the keys, with or without "$." |
| `Json.StringsOfMeaning` | Source/meteoio/meteoio/plugins/JsonWrapper.cc:195-205 | the strings kept are exactly those among the values |
| `Json.NumbersOfMeaning` | Source/meteoio/meteoio/plugins/JsonWrapper.cc:226-236 | the numbers kept are exactly those among the values |
| `Json.StringsOfAppend` | Source/meteoio/meteoio/plugins/JsonWrapper.cc:195-205 | the strings of two result lists are those of each, in order |
| `Json.NumbersOfAppend` | Source/meteoio/meteoio/plugins/JsonWrapper.cc:226-236 | the numbers of two result lists are those of each, in order |
| `Json.FlattenMeaning` | Source/meteoio/meteoio/plugins/JsonWrapper.cc:196-204 | an array result contributes its elements, any other result itself |
| `Json.GetStrings` | Source/meteoio/meteoio/plugins/JsonWrapper.cc:190-207 | corrected in its path split: the string results, and the strings inside array results, in order |
| `Json.GetDoubles` | Source/meteoio/meteoio/plugins/JsonWrapper.cc:221-238 | corrected in its path split: the numeric results, and the numbers inside array results, in order |
| `Json.GetStringMeaning` | Source/meteoio/meteoio/plugins/JsonWrapper.cc:178-188 | getString is getStrings' first string when the first result is a string, and "" otherwise |
| `Json.GetDoubleMeaning` | Source/meteoio/meteoio/plugins/JsonWrapper.cc:209-219 | getDouble is getDoubles' first number when the first result is a number, and nodata otherwise |
| `Bufr.FirstFound` | Source/meteoio/meteoio/plugins/libcodes.h:108-118 | true with the value of the first key that reads something other than the initial value, every earlier key reading nothing new; false with the initial value when no key does |
| `Bufr.StationIdOf` | Source/meteoio/meteoio/plugins/BUFRFile.cc:44-60 | the ID falls back to the name when empty; it is an access error exactly when both are empty; the name is returned as read |
| `Bufr.RefFlag` | Source/meteoio/meteoio/plugins/BUFRFile.cc:77-81 | an absent coordinateReferenceSystem key gives flag 999, a present one its value as a long |
| `Bufr.ReferenceCoordinatesAsWritten` | Source/meteoio/meteoio/plugins/BUFRFile.cc:76-104 | as written, a negative flag other than 999 and 65535 reads FLAG_TO_EPSG out of bounds |
| `Bufr.MissingFlagOutOfBounds` | Source/meteoio/meteoio/plugins/BUFRFile.cc:100-102 | a flag ecCodes reports as missing becomes nodata and reaches the out-of-bounds read |
| `Bufr.ReferenceCoordinates` | Source/meteoio/meteoio/plugins/BUFRFile.cc:76-104 | corrected: every failure is an invalid-format error |
| `Bufr.ReferenceCoordinatesMeaning` | Source/meteoio/meteoio/plugins/BUFRFile.cc:84-104 | the configured coordinates are used exactly for flags 999 and 65535 when configured, the EPSG code of FLAG_TO_EPSG exactly for flags 0 to 3, every other case is rejected; it agrees with the code as written on non-negative flags |
| `Bufr.NewStation` | Source/meteoio/meteoio/plugins/BUFRFile.cc:257-268 | fails, with an I/O error, exactly when the metadata is not valid |
| `Bufr.ExistingStation` | Source/meteoio/meteoio/plugins/BUFRFile.cc:270-281 | failures are I/O errors |
| `Bufr.UpdateRange` | Source/meteoio/meteoio/plugins/BUFRFile.cc:283-286 | the range becomes defined, contains the date, only widens, keeps a bound the date does not pass, and changes nothing else |
| `Bufr.SubsetStep` | Source/meteoio/meteoio/plugins/BUFRFile.cc:225-255 | a subset rejected by processNewStation or processExistingStation is an I/O error (the station reads are given, see Left out) |
| `Bufr.SubsetsFrom` | Source/meteoio/meteoio/plugins/BUFRFile.cc:225-255 | a subset rejected by processNewStation or processExistingStation is an I/O error (the station reads are given, see Left out) |
| `Bufr.MetaData` | Source/meteoio/meteoio/plugins/BUFRFile.cc:32-39 | an accepted file has a station and a default timezone other than nodata; rejections by the station bookkeeping are I/O errors |
| `Bufr.FirstIndex` | Source/meteoio/meteoio/plugins/BUFRFile.cc:245-251 | the index of the first subset of the station, no earlier one being of it |
| `Bufr.AcceptedFromMeaning` | Source/meteoio/meteoio/plugins/BUFRFile.cc:228-254 | every subset from a position on is accepted exactly when each one is |
| `Bufr.DatesOfMeaning` | Source/meteoio/meteoio/plugins/BUFRFile.cc:264-274 | a date belongs to a station's dates exactly when one of its subsets has it |
| `Bufr.RangeOfMeaning` | Source/meteoio/meteoio/plugins/BUFRFile.cc:283-286 | the accumulated range is the least and the greatest date, undefined only before the first subset |
| `Bufr.FirstIndexAt` | Source/meteoio/meteoio/plugins/BUFRFile.cc:245-251 | a subset's station is first seen no later than that subset |
| `Bufr.StepResult` | Source/meteoio/meteoio/plugins/BUFRFile.cc:245-253 | a subset is accepted exactly when processNewStation or processExistingStation accepts it, and then changes the state field by field as they do |
| `Bufr.StepIds` | Source/meteoio/meteoio/plugins/BUFRFile.cc:257-262 | a step keeps station_ids_in_file the stations seen, once each, in first-seen order |
| `Bufr.StepMeta` | Source/meteoio/meteoio/plugins/BUFRFile.cc:257-262 | a step keeps meta_data the metadata of each station's first subset |
| `Bufr.StepTzs` | Source/meteoio/meteoio/plugins/BUFRFile.cc:257-268 | a step keeps station_timezones the timezone of each station's first subset |
| `Bufr.StepDates` | Source/meteoio/meteoio/plugins/BUFRFile.cc:257-277 | a step keeps station_dates exactly the dates of each station's subsets |
| `Bufr.StepRange` | Source/meteoio/meteoio/plugins/BUFRFile.cc:283-286 | a step keeps start_date and end_date the least and the greatest date seen |
| `Bufr.StepAccepted` | Source/meteoio/meteoio/plugins/BUFRFile.cc:257-281 | a subset is accepted exactly when it is valid as a new station, or, for a known one, its date is new and its metadata empty or equal to the first |
| `Bufr.StepAfter` | Source/meteoio/meteoio/plugins/BUFRFile.cc:225-255 | a subset is accepted exactly as StepAccepted says, and an accepted one keeps the state in correspondence with the subsets processed |
| `Bufr.SubsetsFromMeaning` | Source/meteoio/meteoio/plugins/BUFRFile.cc:225-255 | processing succeeds exactly when every remaining subset is accepted, and the state then corresponds to all subsets |
| `Bufr.MetaDataMeaning` | Source/meteoio/meteoio/plugins/BUFRFile.cc:194-216 | readMetaData succeeds exactly when there is a subset, every subset is accepted and the default timezone is not nodata, and then its state corresponds to all the subsets |
| `Bufr.EmptyAfter` | Source/meteoio/meteoio/plugins/BUFRFile.cc:32-33 | the freshly constructed state corresponds to no subset |
| `Bufr.FirstSeenMeaning` | Source/meteoio/meteoio/plugins/BUFRFile.cc:257-262 | the stations first seen are distinct and are exactly those whose first subset has been processed |
| `Bufr.FirstSeenOrdered` | Source/meteoio/meteoio/plugins/BUFRFile.cc:257-262 | the stations first seen are in the order of their first subsets |
| `Bufr.MetaDataStations` | Source/meteoio/meteoio/plugins/BUFRFile.cc:194-262 | each station is listed once, in the order of its first subset, with that subset's metadata |
| `Bufr.MetaDataDates` | Source/meteoio/meteoio/plugins/BUFRFile.cc:264-286 | each station's dates are exactly the dates of its subsets, and the range runs from the least to the greatest date |
| `Bufr.DuplicateDateRejected` | Source/meteoio/meteoio/plugins/BUFRFile.cc:270-275 | two subsets of one station at the same date make readMetaData fail |
| `Bufr.MapStationsMeaning` | Source/meteoio/meteoio/plugins/BUFRFile.cc:303-311 | existing series and mappings are kept, only empty series are appended, every station of the file is mapped, and indices stay inside the series |
| `Bufr.MapStationsDistinct` | Source/meteoio/meteoio/plugins/BUFRFile.cc:303-311 | stations new to the mapping get distinct indices of new series |
| `Bufr.BufrFile.constructor` | Source/meteoio/meteoio/plugins/BUFRFile.cc:32-33 | the state starts empty |
| `Bufr.BufrFile.IsNewStation` | Source/meteoio/meteoio/plugins/BUFRFile.cc:257-262 | a station is new exactly when it has no metadata yet |
| `Bufr.BufrFile.ProcessNewStation` | Source/meteoio/meteoio/plugins/BUFRFile.cc:257-268 | fails exactly as NewStation does, and otherwise sets the state to NewStation's |
| `Bufr.BufrFile.ProcessExistingStation` | Source/meteoio/meteoio/plugins/BUFRFile.cc:270-281 | fails exactly as ExistingStation does, and otherwise sets the state to ExistingStation's |
| `Bufr.BufrFile.UpdateDateRange` | Source/meteoio/meteoio/plugins/BUFRFile.cc:283-286 | the new state is UpdateRange of the old |
| `Bufr.BufrFile.ProcessSubsets` | Source/meteoio/meteoio/plugins/BUFRFile.cc:225-255 | fails exactly as SubsetsFrom does, and otherwise sets the state to its result |
| `Bufr.BufrFile.ReadMetaData` | Source/meteoio/meteoio/plugins/BUFRFile.cc:194-216 | fails exactly as MetaData does, and otherwise sets the state to its result |
| `Bufr.BufrFile.UpdateStationIdsMapping` | Source/meteoio/meteoio/plugins/BUFRFile.cc:303-311 | the series and mapping are MapStations of the file's stations |

## Left out

- File, directory and stream I/O. CSV, GRIB table and iCSV files are
  given as their lines. The CSV byte-offset index cache (`CsvIO.cc:1454-1462`,
  `1517-1520`) is not modelled, because it only speeds up re-reading.
- `sscanf`, `std::regex`, `Date` arithmetic, the six decimal-epoch
  conversions and `IOUtils::convertString` are parameters or abstract
  matchers. No floating-point rounding is modelled: values are exact
  reals.
- `IOUtils` (split, trim, toUpper) is not part of this model. `split`
  is assumed to keep empty fields, and `toUpper` to be ASCII.
- LastValue: a repeated argument key keeps only its last value. This
  takes `IOUtils::parseArg`, `readLineToSet` and `readLineToVec` to
  replace the output they are given rather than add to it; `IOUtils` is
  not part of this model.
- `OshdIO.h` is not part of this model. The file index is assumed to
  sort by time step, and time steps are compared as their twelve-digit
  numbers.
- The body of the `CsvParameters` constructor is not part of this
  model. Its defaults are those the header's member initialisers and
  `CsvIO.cc` imply.
- Where `CsvIO.h` declares members that `CsvIO.cc` does not implement
  as such (`nodata` as a set, `setNodata`, `excludeLine`,
  `purgeChars`), the model follows `CsvIO.cc`. Per-line cleaning
  (comments, quotes, purge characters) is a parameter of `CsvRead`.
- The warnings `setUnits` writes to stderr are returned as the list of
  unrecognised units. The other console output is not modelled:
  verbose messages, AUTOMERGE's conflict counts and `std::cerr`
  notices, the BUFR info messages, and the GRIB grid-mismatch message.
- ecCodes is not part of this model. This covers `GRIBIO.cc`, the
  message handles of `GRIBFile`, `BUFRFile` and `libcodes`, and
  `CODES_MISSING_LONG`/`CODES_MISSING_DOUBLE`, which are modelled as
  the constants ecCodes documents. The GRIB edition check is commented
  out in the source and is not modelled.
- The GRIB `PARAM_TYPE` else-branches (`GRIBFile.cc:187-188`, `213-214`)
  cannot be reached for a value of the enum, so they have no
  counterpart.
- BUFR `readData`/`processMessage`/`fillFromMessage`, `getPosition` and
  `getTimezone` are ecCodes reads; only the station mapping
  (`updateStationIdsMapping`) and the metadata bookkeeping are modelled.
  `Bufr.BufrFile.UpdateStationIdsMapping` returns the new series and
  mapping instead of updating the caller's references in place.
- `JsonWrapper::curl_read`, `readAndParse`, `setConnectionParams` and
  `printJSON` are network and console I/O. The JSON tree is given
  already parsed. An object is the sequence of its members in the
  sorted, duplicate-free order of picojson's `std::map`, and the model
  does not require that order.
- `OshdIO::readFromFile`, `fillStationMeta` and `read2DGrid` read
  MATLAB files through matio and are not modelled.
- CREATE's `editTimeSeries` only forwards to the data generators'
  `create`. Its argument handling is modelled
  (`EditingAlgorithms.ParseCreate`, `CleanGeneratorArgs`); the
  forwarding itself is `DataGenerator.CreatePeriod`.
- The generators, the resampling algorithms and the rate computation
  are parameters. They are physics and floating-point numerics.
- MOVE takes the source parameter's index from the first record of a
  series and uses that index on every record
  (`DataEditingAlgorithms.cc:258-268`). The model looks parameters up
  by name in each record. The two agree when all records of a series
  have the same parameter layout, as MeteoIO's series do.
- `MeteoData::mergeTimeSeries` and `StationData::merge` are not part of
  this model. MERGE and AUTOMERGE take them as parameters.
- iCSV `aggregateData`, `checkMeteoIOCompatibility`,
  `toMetaMap`/`toMap`, `toiCSVLocation` and the `geoLocation` overload
  of `convertVector` only format output or convert to other MeteoIO
  types, and are not modelled. `operator==` dereferences `find()`
  without checking for `end`; that case is the `Undefined` error and is
  not verified as intended. The two `roughlyEqual` tests scan the keys
  in `std::map` order and stop at the first mismatch, so they reach
  the same unchecked `find()` only when that first mismatching key is
  missing (`ICsv.ScanKeys`).
- CsvParams.CsvParameters.PlaceSingleField: states that only fields
  replaced by the single parameter change, and that a user index which
  fits is where it goes. It does not state which column the two- and
  three-column fallbacks pick (the one that is neither date nor time,
  `CsvIO.cc:692-699`).
- CsvParams.CsvParameters.ParseFields: inherits that gap; the field
  a two- or three-column fallback replaces is only known to be one of
  the fields.
- CsvParams.CsvParameters.ParseNames: the same gap.
- CsvParams.CsvParameters.CompleteFields: the same gap.
- GeometryPlacement: the corrected half. As written
  (`iCSVHelper.cc:582-590`) the coordinates are tested after
  standardization, so a geometry naming a data column raises an
  IOException instead of moving the location to the data (ninth
  Findings row, `ICsv.GeometryPlacementAsWritten`).
- ParseGeometry: `ICsv.ICsvFile.ParseGeometry` stores the corrected
  GeometryPlacement, so it differs from `iCSVHelper.cc:582-590` as
  written for a geometry naming a column.
- ColumnsToAppend: the corrected half. As written
  (`iCSVHelper.cc:562-566`) an OSWR field does not spare RSWR its
  column (tenth Findings row,
  `ICsv.ICsvFile.ColumnsToAppendAsWritten`).
- ParamName: the corrected half. It maps names with
  `CsvSpecs.IdentifyField`; `assignMetadata` as written calls
  `identifyField` as written (`CsvIO.cc:484`), which maps `WS_MAX...`
  to VW and `INCOMING_RADIATION...` to RSWR (first two Findings rows,
  `CsvSpecs.IdentifyFieldAsWritten`).
- AssignMetadata: its PARAM value comes from the corrected ParamName,
  so it differs from `CsvIO.cc:484` as written for `WS_MAX...` and
  `INCOMING_RADIATION...` names.
- ParseSpecialHeaders: inherits the corrected PARAM value through
  AssignMetadata.
- ParseFileName: inherits the corrected PARAM value through
  AssignMetadata.
- SetUnits: classifies units with the corrected `CsvSpecs.UnitActionOf`.
  As written (`CsvIO.cc:724`) the unit `pc` is reported unknown and left
  unscaled (third Findings row, `CsvSpecs.UnitActionAsWritten`).
- ClassifyUnits: the loop of SetUnits, corrected in the same way.
- BufrMessageDate: reads year to second with the corrected
  `Codes.GetInt`. As written (`libcodes.cc:218-222`) a value ecCodes
  reports as missing comes out as 2147483647, not nodata (eighth
  Findings row, `Codes.GetIntAsWritten`).
- JSONQuery: splits the path with the corrected `Json.Start`. As
  written (`JsonWrapper.cc:123-125`) `$.a.b.c` on `{"a":{"b":{"c":1}}}`
  looks up the empty key at the second level and yields nothing (fourth
  Findings row, `Json.SplitPathAsWritten`). The same holds for
  `Json.Query`, `Json.GoToJSONPath`, `Json.GetString` and
  `Json.GetDouble`.
- GetStrings: built on the corrected Query; multi-level paths give
  results the code as written does not.
- GetDoubles: built on the corrected Query; multi-level paths give
  results the code as written does not.
- AutoMergeTimeSeries: requires that `MeteoData::mergeTimeSeries` keeps
  the station of a non-empty series it merges into. `MeteoData` is not
  part of this model.
- AutoMergeStations: requires that `StationData::merge` keeps the
  upper-cased ID of the station merged into. `StationData` is not part
  of this model.
- ParseAutoMerge: MERGE_STRATEGY and MERGE_CONFLICTS are kept as the
  raw strings given (the last one wins). `MeteoData::getMergeType` and
  `getMergeConflicts`, which convert them
  (`DataEditingAlgorithms.cc:399`, `401`, `513`, `515`), are not part of
  this model, so their rejection of an unknown name is not modelled.
- ParseMerge: MERGE_STRATEGY and MERGE_CONFLICTS are kept as the raw
  strings given; an unknown name is not rejected, because
  `MeteoData::getMergeType` and `getMergeConflicts`
  (`DataEditingAlgorithms.cc:513`, `515`) are not part of this model.
- SubsetStep: each subset comes with its station metadata, date and
  timezone already read. `getStationDataBUFR`'s AccessException
  (`BUFRFile.cc:53`, modelled on its own as `Bufr.StationIdOf`) and
  InvalidFormatException (`BUFRFile.cc:88`, `99`, modelled as
  `Bufr.ReferenceCoordinates`) are not raised inside the step.
- SubsetsFrom: fails only as SubsetStep does, so the per-subset
  exceptions of `getStationDataBUFR` are not among its errors.
- MetaData: fails only as SubsetsFrom does, or for no station or a
  nodata default timezone.
- ProcessSubsets: fails exactly as SubsetsFrom does.
- ReadMetaData: fails exactly as MetaData does.

## Findings

| source | as written | input that shows it | evidently intended | confidence | as-written member | corrected member |
|---|---|---|---|---|---|---|
| Source/meteoio/meteoio/plugins/CsvIO.cc:455-460 | `identifyField` tests the `WS` prefix before `WS_MAX`, so the `WS_MAX` rule can never fire | column `WS_MAX` is read as VW | `WS_MAX...` becomes VW_MAX | not executed | `CsvSpecs.IdentifyFieldAsWritten`, `CsvSpecs.WsMaxReadAsWind` | `CsvSpecs.IdentifyField` |
| Source/meteoio/meteoio/plugins/CsvIO.cc:452 | an `INCOMING_RADIATION` column is mapped to RSWR (reflected shortwave) | column `INCOMING_RADIATION` is read as RSWR | incoming shortwave radiation is ISWR | not executed | `CsvSpecs.IncomingRadiationRead` | `CsvSpecs.IdentifyField` |
| Source/meteoio/meteoio/plugins/CsvIO.cc:724 | `setUnits` upper-cases each unit, then compares it with lower-case `"pc"` | unit `pc` is reported as unknown and not scaled | `pc` is a percentage, scaled by 0.01 | not executed | `CsvSpecs.UnitActionAsWritten`, `CsvSpecs.PercentAliasUnreachable` | `CsvSpecs.UnitActionOf`, `CsvSpecs.UnitTablesAgree` |
| Source/meteoio/meteoio/plugins/JsonWrapper.cc:123-125 | the key start skips a second character `.` even when the first is not `$` | the remainder `b.c` of `$.a.b.c` is looked up as the empty key | without `$` the key starts at 0, giving `b` | not executed | `Json.StartAsWritten`, `Json.SingleCharKeyLost` | `Json.Start`, `Json.SplitJoin` |
| Source/meteoio/meteoio/plugins/JsonWrapper.cc:133-134 | `goToJSONPath` recurses on a deeper path but drops the recursive result and returns null | `$.a.bb` on `{"a": {"bb": 1}}` gives null | the value reached, 1 | not executed | `Json.DeeperPathIsNull`, `Json.GoToNestedExample` | `Json.GoToFollow`, `Json.GoToInQuery` |
| Source/meteoio/meteoio/plugins/BUFRFile.cc:100-102 | a negative reference flag passes `ref_flag <= 3` and indexes `FLAG_TO_EPSG` out of bounds | a coordinateReferenceSystem ecCodes reports as missing becomes nodata (-999) | only flags 0 to 3 index the table, others are unsupported | not executed | `Bufr.ReferenceCoordinatesAsWritten`, `Bufr.MissingFlagOutOfBounds` | `Bufr.ReferenceCoordinates`, `Bufr.ReferenceCoordinatesMeaning` |
| Source/meteoio/meteoio/DataEditingAlgorithms.cc:829 | METADATA on the station list compares the raw station ID with the upper-cased block ID, while the series editing upper-cases both | station `stat1` with block `STAT1`: the series is edited, the station list is not | both compare IDs upper-cased | not executed | `EditingMetadata.MetadataStationsAsWritten`, `EditingMetadata.LowerCaseStationMissed` | `EditingMetadata.MetadataStations`, `EditingMetadata.MetadataStationsFindsSeriesStation` |
| Source/meteoio/meteoio/plugins/libcodes.cc:218-222 | the `int` overload of `getParameter` sets nodata for a missing value, then overwrites it with the cast of the long it read | a missing value comes out as 2147483647, not nodata | a missing value gives nodata, as in the `long` overload | not executed | `Codes.GetIntAsWritten`, `Codes.GetIntMissingIsNotNodata` | `Codes.GetInt`, `Codes.GetIntIsNarrowedLong` |
| Source/meteoio/meteoio/plugins/iCSVHelper.cc:582-590 | `parseGeometry` tests `isEmpty` on coordinates `extractCoordinates` has already standardized, which are never empty | geometry `position` naming a data column raises an IOException | a geometry naming a column puts the location in the data | not executed | `ICsv.GeometryPlacementAsWritten`, `ICsv.ColumnGeometryNeverDetected`, `ICsv.ColumnGeometryExample` | `ICsv.GeometryPlacement`, `ICsv.ICsvFile.ParseGeometry` |
| Source/meteoio/meteoio/plugins/iCSVHelper.cc:562-566 | in `columnsToAppend` the RSWR branch falls through to the generic test, so OSWR in the fields does not cover RSWR | fields `timestamp, OSWR` with RSWR data still ask for an RSWR column | RSWR needs no column when the fields name RSWR or OSWR | not executed | `ICsv.OswrDoesNotCoverRswr`, `ICsv.ICsvFile.ColumnsToAppendAsWritten` | `ICsv.ICsvFile.ColumnsToAppend`, `ICsv.NeedsColumnAgrees` |
