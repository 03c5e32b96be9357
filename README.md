# Energy analysis core, modelled in Dafny

This project models the deterministic bookkeeping of the energy-analysis platform. That
is the part whose behaviour can be stated exactly once the clock, files, environment and
downloads are taken as parameters:

- **Configuration and utilities** (`src/utils.py`):
  - the `.env` line parser and the `Config` dictionary;
  - the commodity-alias normaliser;
  - the one-minute sliding-window `APIRateLimiter`;
  - the `PerformanceMonitor` timers;
  - the issue and warning flags of `validate_price_data`.
- **Model lifecycle** (`src/models.py`):
  - placeholder models with their fitted guard;
  - the price model's window of the last 30 targets;
  - the ensemble's equal weights;
  - the in-memory `ModelRegistry`.
- **Record transformations** (`src/data_processor.py`):
  - seasonal indicator flags;
  - grouping rows by region;
  - lag columns and rolling min/max;
  - commodity-to-table routing;
  - commodity-specific processing;
  - the `run_pipeline` status record.
- **Ingestion** (`scripts/update_yfinance_data.py`):
  - the ticker table;
  - the CSV file-name rule;
  - the "no data, no write" rule;
  - the success count fed into the summary record.

Modules follow the source:

| Module | Models | Kind of code |
|---|---|---|
| `Configuration` | `Config` | class plus loops |
| `CommodityNames` | `clean_commodity_name` | functions |
| `RateLimiter` | `APIRateLimiter` | class |
| `Performance` | `PerformanceMonitor` | class |
| `PriceValidation` | flags of `validate_price_data` | method that builds the result step by step |
| `Models` | the three model classes, `ModelEnsemble`, `ModelRegistry` | classes |
| `Seasons`, `Features`, `Regions` | the frame transformations | sequence functions; the region loop is a method |
| `Pipeline` | `DataPipeline` | functions plus a method that fills the result record |
| `Ingestion` | the download script | functions plus the counting loop |

Shared modules:

- `Wrappers`: Option, Result and Outcome.
- `Text`: Python's `str.strip`, `lower`, `startswith`, `find` and `replace`.
- `Frames`: a row-oriented view of a pandas DataFrame.
- `Numbers`: sums, minima, maxima and means of reals.

Parameters stand in for the outside world:

- The clock is a parameter:
  - integer seconds for the rate limiter;
  - real seconds for the timers;
  - a formatted stamp string for registry ids and summary records.
- The `.env` file is an optional sequence of lines.
- The environment is a map.
- The database is a map from table names to frames.
- Each yfinance download is a function from ticker to "frame or raised".
- Each pipeline step (price processing, seasonal processing, quality check, save) is a
  function that either returns its value or raises with a message.
- Which files can be written is a predicate on file names.
- The output directory is a map from file names to contents.
- The rate limiter returns its wait instead of sleeping.

Python's dictionary insertion order is observable in three places:

- the registry lists models in registration order, kept as a separate `order` sequence;
- `aggregate_regional_data` keys its groups in first-appearance order, kept as the ordered
  `regions` sequence;
- `get_summary` returns operations in the order they were first timed; the model drops this
  order (see "## Left out").

## Model

| member | source | states |
|---|---|---|
| Text.Strip | src/utils.py:45 | The result is stripped (no leading or trailing whitespace) and is a contiguous slice of the input |
| Text.StripRemovesOnlySpace | src/utils.py:45 | Every character before or after the slice kept by strip is whitespace |
| Text.Lower | src/utils.py:136 | Same length; every upper-case letter maps to its lower-case letter and every other character is unchanged |
| Text.Find | src/utils.py:47 | The index of the first `=`; it is before the end exactly when the line contains `=` |
| Configuration.ParseLine | src/utils.py:44-48 | A line yields an entry exactly when, once stripped, it is non-empty, does not start with `#` and contains `=` |
| Configuration.ParsedEntryShape | src/utils.py:47-48 | The parsed key and value are stripped, and the key contains no `=` (the split is at the first `=`) |
| Configuration.ParseRenderedLine | src/utils.py:44-48 | A stripped key without `=` and a stripped value, written as `key=value`, parse back to that pair |
| Configuration.ParsedKeys | src/utils.py:43-48 | A key is in the parsed dictionary exactly when some line of the file defines it |
| Configuration.LastLineWins | src/utils.py:48 | The last line that defines a key decides its value |
| Configuration.Assemble | src/utils.py:43-48 | Every value in the dictionary was written by an entry for that key |
| Configuration.ParseLines | src/utils.py:40-48 | Every key and value comes from one parsed line of the file; both are stripped and no key contains `=` |
| Configuration.ParseFile | src/utils.py:40-48 | The loop builds exactly the dictionary of the file's lines, later lines overwriting earlier ones |
| Configuration.ApplyEnvironment | src/utils.py:51-54 | The keys are exactly the parsed keys, so no key comes from the environment alone; a key takes its environment value only when that value is set and non-empty |
| Configuration.LoadConfig | src/utils.py:38-56 | An absent file gives no entries; the result is the parsed file overridden by the environment on parsed keys only |
| Configuration.Config.constructor | src/utils.py:34-36 | The object's dictionary is the loaded configuration |
| Configuration.Config.Get | src/utils.py:58-60 | Returns the stored value for a present key and the default for an absent one |
| Configuration.Config.Set | src/utils.py:62-64 | Afterwards `get(key)` returns the value and every other key is unchanged |
| CommodityNames.Normalized | src/utils.py:136 | The lookup key is stripped and has no upper-case letters |
| CommodityNames.CleanCommodityName | src/utils.py:121-136 | The result is stripped and has no upper-case letter, whether it is a canonical name or the lookup key |
| CommodityNames.CleanAlias | src/utils.py:123-136 | A listed alias, in any case and with any surrounding whitespace, gives its canonical name, one of natural_gas, crude_oil and electricity |
| CommodityNames.CleanOther | src/utils.py:136 | Any other input comes back lower-cased and stripped |
| CommodityNames.CanonicalFixed | src/utils.py:123-136 | Each canonical name cleans to itself |
| CommodityNames.CleanIdempotent | src/utils.py:121-136 | Cleaning twice is the same as cleaning once |
| RateLimiter.Age | src/utils.py:294 | `(now - t).seconds` lies in [0, 86400), the seconds-within-day part of the difference |
| RateLimiter.Recent | src/utils.py:293-294 | A call is kept exactly when it was already recorded and its age is under 60 seconds; the list never grows |
| RateLimiter.RecentAppend | src/utils.py:293-294 | Filtering distributes over concatenation, so kept calls stay in their recorded order |
| RateLimiter.Delay | src/utils.py:297-301 | The wait is at most 60 seconds and positive only when the window is full and non-empty; `min()` raises exactly on an empty window with a non-positive limit; when every kept call is under a minute old, a full, non-empty window always means a wait |
| RateLimiter.DelayBounds | src/utils.py:297-301 | A wait happens exactly when at least `calls_per_minute` calls are kept and there is at least one (the wait is then 1 to 60 seconds); `min()` of an empty list raises exactly when nothing is kept and the limit is not positive |
| RateLimiter.WindowCanExceedLimit | src/utils.py:297-304 | The new call is recorded even after a wait, so the list can hold `calls_per_minute + 1` entries |
| RateLimiter.DayOldCallLooksRecent | src/utils.py:294 | A call a day and ten seconds old counts as ten seconds old and forces a 50-second wait at a limit of one |
| RateLimiter.WaitAsImported | src/utils.py:288-304 | As imported, the limiter raises NameError exactly when a wait is due and ValueError exactly when `min()` meets an empty window; it succeeds exactly when no wait is due, and the calls become the filtered list, plus the new call only on success |
| RateLimiter.ImportedLimiterSecondCallRaises | src/utils.py:297-304 | At one call per minute, a second call one second after the first raises, and that call is not recorded |
| RateLimiter.APIRateLimiter.constructor | src/utils.py:284-286 | Stores the limit and starts with no calls |
| RateLimiter.APIRateLimiter.WaitIfNeeded | src/utils.py:288-304 | Returns the wait (or the error from `min`) for the filtered window; afterwards `calls` is the filtered old calls in order, followed by `now` unless `min` raised |
| Performance.StatsOf | src/utils.py:370-376 | count is the number of durations, total their sum, average total/count; min and max are durations that bound all others, and min ≤ average ≤ max |
| Performance.PerformanceMonitor.constructor | src/utils.py:336-338 | No durations and no running timers |
| Performance.PerformanceMonitor.StartTimer | src/utils.py:340-342 | Records or overwrites the operation's start; durations are unchanged |
| Performance.PerformanceMonitor.EndTimer | src/utils.py:344-356 | Without a start: returns None and changes nothing. Otherwise: appends exactly one duration to that operation, removes its start and returns the duration |
| Performance.PerformanceMonitor.GetAverageTime | src/utils.py:358-362 | 0.0 when nothing is recorded; otherwise the mean, which lies between the shortest and the longest duration |
| Performance.PerformanceMonitor.GetSummary | src/utils.py:364-378 | Entries exactly for the operations with recorded durations, each the statistics of its durations |
| PriceValidation.NoNegative | src/utils.py:90-93 | The negative count is zero exactly when no price is negative; a missing price is never negative |
| PriceValidation.NoMissing | src/utils.py:85-87 | The missing count is zero exactly when every price is present |
| PriceValidation.NoZero | src/utils.py:96-98 | The zero count is zero exactly when no price equals zero |
| PriceValidation.ValidatePriceData | src/utils.py:68-98 | A missing column gives an invalid result with that one issue and nothing else. Otherwise: valid exactly when no price is negative; the issues are exactly one negative-price issue with its count when a price is negative; the warnings are exactly one missing-values warning with its count when a price is missing, then one zero-price warning with its count when a price is zero |
| Models.NamePrefixIdentifiesKind | src/models.py:54 | The name `ModelName` gives each class (prefixes set here and at lines 146 and 194) starts with `PriceForecast_`, `DemandPrediction_` or `RiskAssessment_` exactly when the model is of that class |
| Models.Tail | src/models.py:85 | `tail(n)` is the last min(n, length) values, in order |
| Models.MissingColumns | src/models.py:69-70 | Lists exactly the requested columns the frame lacks |
| Models.FitCheck | src/models.py:74-92 | A demand model (lines 165-178) always fits and a risk model always raises TypeError (`BaseModel.fit`, line 27, needs two arguments); a KeyError names only required price-model columns the frame lacks |
| Models.FitSucceeds | src/models.py:74-92 | A price model fits exactly when its four feature columns and `price` are present; a demand model (lines 165-178) always fits; a risk model never does (`BaseModel.fit` needs two arguments) |
| Models.ForecastLength | src/models.py:104-108 | With periods None or 0 the horizon is used; any other positive count is used as given, and a negative length is an error |
| Models.Model.constructor | src/models.py:19-25 | A new model is unfitted, with no model, no feature columns, no target and empty metrics; its name comes from its class and arguments |
| Models.Model.Fit | src/models.py:74-92 | On failure nothing changes. A price model becomes fitted with a moving-average window of 30 over the last min(30, n) prices, in order, its four feature columns and target `price`. A demand model (lines 165-178) becomes fitted with the fixed regression and keeps its columns. Metrics never change |
| Models.Model.PredictPrices | src/models.py:94-108 | Before fit: NotFitted. After: the forecast length chosen from periods and horizon |
| Models.Model.PredictDemand | src/models.py:180-187 | Fails exactly when not fitted; otherwise one prediction per input row |
| Models.FirstFitFailure | src/models.py:234-235 | No failure exactly when every model fits |
| Models.FittedCount | src/models.py:234-235 | The first n models fit, and model n, when there is one, raises; the loop stops there |
| Models.FirstFailureAt | src/models.py:234-235 | When all models before i fit and model i raises, that raise is the ensemble's error |
| Models.EqualWeightsSumToOne | src/models.py:238 | The n equal weights add up to one |
| Models.ModelEnsemble.constructor | src/models.py:227-230 | Unfitted, no weights |
| Models.ModelEnsemble.Fit | src/models.py:232-239 | Each member before the first failure is left in exactly the state its own `fit(data)` gives, and every other member is unchanged. The first member failure is the ensemble's error and leaves the ensemble unchanged; an empty list raises division by zero. Otherwise every member is fitted, there is one weight 1/n per model, and the ensemble is fitted |
| Models.ModelEnsemble.Predict | src/models.py:241-244 | Raises NotFitted exactly when the ensemble is not fitted |
| Models.Selected | src/models.py:308-311 | Only registered ids are listed |
| Models.SelectedMembers | src/models.py:310-311 | An id is listed exactly when it is registered and its model's name matches the type (absent, empty, or a prefix of the name) |
| Models.SelectAll | src/models.py:311 | With no type or the empty type, every registered id is listed, in registration order |
| Models.SelectedAppend | src/models.py:310-318 | Selection distributes over concatenation, so the list keeps registration order |
| Models.SelectedByKind | src/models.py:306-319 | Listing by `PriceForecast_` lists exactly the registered price-forecast models |
| Models.ModelRegistry.constructor | src/models.py:259-261 | An empty registry |
| Models.ModelRegistry.RegisterModel | src/models.py:286-297 | The id is name + `_` + stamp; the entry is written or overwritten, a new id goes last in the order and an existing one keeps its place, and `get_model(id)` then returns the model |
| Models.ModelRegistry.GetModel | src/models.py:299-304 | Returns the registered model; an unknown id is a not-found error (the registry is unchanged either way) |
| Models.ModelRegistry.ListModels | src/models.py:306-319 | One listing per selected id, in order, with its id, name, registration time and metrics |
| Seasons.Flags | src/data_processor.py:92-94 | Each flag is 0 or 1; exactly one is set for a month 1..12, and none for a missing or out-of-range month |
| Seasons.FlagsFollowQuarters | src/data_processor.py:92-94 | Winter, summer and shoulder agree with the meteorological quarters of the year |
| Seasons.SeasonalIndicators | src/data_processor.py:92-94 | One row of flags per row, each the flags of that row's month |
| Features.Shift | src/data_processor.py:113 | Same length; row i holds row i−k when i ≥ k and is missing otherwise |
| Features.WindowMin | src/data_processor.py:119 | Present exactly when every value of the window is; then it is a value of the window and bounds all of them from below |
| Features.WindowMax | src/data_processor.py:120 | Present exactly when every value of the window is; then it is a value of the window and bounds all of them from above |
| Features.RollingMin | src/data_processor.py:116-119 | Missing for the first w−1 rows; elsewhere present exactly when rows i−w+1..i are all present, and then the minimum of those rows |
| Features.RollingMax | src/data_processor.py:116-120 | Missing for the first w−1 rows; elsewhere present exactly when rows i−w+1..i are all present, and then the maximum of those rows |
| Features.RollingMinBelowMax | src/data_processor.py:119-120 | Over present prices, the rolling minimum never exceeds the rolling maximum |
| Features.CreateModelFeatures | src/data_processor.py:107-122 | Fails exactly when there is no price column; otherwise lag columns 1, 7 and 30 are the shifts and the min/max columns 7, 30 and 90 are the rolling minima and maxima |
| Regions.Unique | src/data_processor.py:102 | `unique()` has no repeats and holds exactly the values of the column |
| Regions.UniqueInFirstAppearanceOrder | src/data_processor.py:102 | The unique values come in the order of their first appearance |
| Regions.GroupRows | src/data_processor.py:103 | A group holds only input rows of its region; a missing region matches no row |
| Regions.GroupRowsAppend | src/data_processor.py:103 | Grouping distributes over concatenation, so each group keeps the input order |
| Regions.RowInItsGroup | src/data_processor.py:102-103 | Every row with a region is in the group of that region |
| Regions.GroupsCoverRows | src/data_processor.py:100-105 | The group sizes plus the rows with a missing region add up to the number of rows, so every other row is in exactly one group |
| Regions.AggregateRegionalData | src/data_processor.py:98-105 | A missing region column raises. Otherwise: one key per unique value, in first-appearance order, each mapped to the frame of that region's rows |
| Pipeline.TableName | src/data_processor.py:201-207 | natural_gas, crude_oil and power map to their tables; any other commodity maps to commodity + `_data` |
| Pipeline.TableNameInjective | src/data_processor.py:201-207 | Distinct commodities give distinct table names |
| Pipeline.LoadRawData | src/data_processor.py:197-216 | The routed table's frame; an unreadable table gives an empty frame |
| Pipeline.ProcessCommodityData | src/data_processor.py:218-238 | Empty input and input without `price` or `date` come back unchanged; a raise in the price steps is the result; with only `date`, the seasonal step alone decides the result; when the price steps succeed, their output is the result, passed through the seasonal step when it has `date` |
| Pipeline.PipelineRun | src/data_processor.py:166-195 | The record carries the timestamp and commodity, never stays `started`, is `completed` exactly when every step succeeds, and is `failed` exactly when an error is recorded |
| Pipeline.CompletedRecordsCounts | src/data_processor.py:176-185 | A completed run reports the loaded and processed row counts and the quality report of the processed data |
| Pipeline.MissingTableProcessesNothing | src/data_processor.py:209-221 | A commodity whose table is absent loads an empty frame, which passes through processing, so the run (lines 176-181) reports zero raw and zero processed records |
| Pipeline.RunPipeline | src/data_processor.py:166-195 | Fills the record step by step to exactly the pipeline's specified outcome; no raise escapes |
| Ingestion.CsvFileName | scripts/update_yfinance_data.py:90 | The ticker with every `=` replaced by `_` and all other characters in place, followed by `.csv`; no `=` remains |
| Ingestion.CsvFileNameInjective | scripts/update_yfinance_data.py:90 | Tickers without `_` that give the same file name are equal |
| Ingestion.CsvFileIsNotSummary | scripts/update_yfinance_data.py:90 | No ticker's data file is the summary file `update_summary.json` (line 124) |
| Ingestion.TickerTableWellFormed | scripts/update_yfinance_data.py:17-45 | No ticker contains `_` and the twenty symbols are distinct |
| Ingestion.TickerFileNamesDistinct | scripts/update_yfinance_data.py:17-45 | The twenty file names built at line 90 are pairwise distinct |
| Ingestion.DownloadTickerData | scripts/update_yfinance_data.py:53-83 | None exactly when the download raises or is empty; otherwise the same rows with `Ticker` and `Name` set in every row, the column list extended by each of the two at the end only when it is new, and every other column unchanged |
| Ingestion.SaveDataToCsv | scripts/update_yfinance_data.py:85-99 | No data or empty data returns false and writes nothing; true exactly when the file can be written, and then only that ticker's file changes |
| Ingestion.Saves | scripts/update_yfinance_data.py:110-111 | A ticker's data is saved exactly when its download returned a non-empty frame and its file can be written |
| Ingestion.CountSaved | scripts/update_yfinance_data.py:106-112 | The success count never exceeds the number of tickers |
| Ingestion.Updated | scripts/update_yfinance_data.py:109-112 | Processing the tickers never removes a file from the directory |
| Ingestion.UpdatedLeavesOtherFiles | scripts/update_yfinance_data.py:109-112 | A file named after no ticker is left as it was |
| Ingestion.UpdatedTickerFile | scripts/update_yfinance_data.py:109-112 | With distinct file names, a saved ticker's file holds its own data and an unsaved ticker's file is as before |
| Ingestion.SaveAll | scripts/update_yfinance_data.py:109-112 | The loop counts the saves that return true and leaves the directory as the tickers processed in order |
| Ingestion.UpdateTickerData | scripts/update_yfinance_data.py:101-129 | total = 20, success = number of saves, success ≤ total, success + failed = total; the summary is written after the data files |
| Ingestion.UpdateOutcome | scripts/update_yfinance_data.py:85-112 | Over the fixed table, each saved ticker's file holds its data and every other ticker's file is untouched |
| Numbers.MeanBetween | src/utils.py:358-374 | The mean of a non-empty list lies between its minimum and maximum |
| Numbers.SumRepeat | src/models.py:238 | n copies of c sum to n·c |
| Frames.SetColumn | scripts/update_yfinance_data.py:75-76 | Column assignment sets that column in every row; the column list is unchanged when the name exists and gains the name at the end when it does not; all other columns are unchanged |

## Left out

- I/O, and what replaces it:
  - File reading, `os.path.exists` and `os.getenv` become an optional line sequence and an environment map.
  - SQLite connection and queries become a database map. For a connection failure, the model takes "connection raised" as an input.
  - `save_processed_data`, `ModelRegistry._setup_registry_table` and `ensure_output_directory` are not modelled: they are database and file plumbing.
  - A `to_csv` that fails part-way is modelled as writing nothing.
- The clock and sleeping:
  - `datetime.now()` and `strftime` become parameters.
  - `time.sleep` becomes the returned wait.
  - Logging is dropped.
- Randomness and floating point:
  - forecast values, noise and confidence intervals in the `predict` methods;
  - `create_sample_training_data`;
  - all statistics on floats: IQR cleaning, returns, technical indicators, rolling mean and std, quality-report anomalies, and the mean/std/outlier part of `validate_price_data`.
  - Durations and weights are exact reals, not binary floats.
- Text.Lower: lower-cases ASCII letters only, whereas Python's `str.lower` covers all of Unicode.
- Text.Strip: treats as whitespace the characters Python's `str.isspace` accepts. Other Unicode subtleties are not modelled.
- Models.Model.PredictPrices: states the forecast length, not its values, and not the `np.mean` of an empty window.
- Models.Model.PredictDemand: states the number of predictions, not their values.
- Performance.PerformanceMonitor.GetSummary: the summary is a map, so the order in which operations were first timed, which Python's dictionary keeps, is not modelled.
- Models.ModelEnsemble.Predict: only the fitted guard. Combining the member predictions is not modelled.
- Model `evaluate`, `assess_portfolio_risk`, VaR and expected shortfall: hardcoded or floating-point placeholders, not modelled.
- Models.ModelRegistry.RegisterModel:
  - metadata values are strings rather than arbitrary Python objects;
  - the stamp and the registration time are taken as inputs.
- Pipeline.ProcessCommodityData: the `power`/`region` branch (src/data_processor.py:233-236) is not modelled, because it discards the grouping it computes and, with `region` present, cannot raise, so the result does not depend on the commodity.
- Pipeline.LoadRawData: the database map is looked up by the exact table-name string. SQLite resolves the unquoted name in `SELECT * FROM {table_name}` case-insensitively, and a name it cannot parse makes the query fail; neither is modelled, so two commodity spellings differing only in letter case read different tables in the model but the same table in SQLite.
- Pipeline.RunPipeline: each step's result is an input. Step internals are not modelled: the cleaning, returns and indicators, the date extraction and `validate_data_quality`.
- `process_seasonal_patterns`: the date parsing and the year, day and week columns are not modelled. Only the flags are modelled, over the parsed month.
- Features.CreateModelFeatures:
  - the rolling mean and std columns are not produced;
  - prices are numbers or missing; a non-numeric price column is not modelled.
- Ingestion.DownloadTickerData: modelled as a function on the fetched frame. The in-place update of that fresh frame is invisible to callers.
- Ingestion.UpdateTickerData: a failing summary write is reported as a flag. The exception's effect on the process is not modelled.

## Findings

| source | as written | input that shows it | evidently intended | confidence | as-written member | corrected member |
|---|---|---|---|---|---|---|
| src/utils.py:301 | `time` is imported only inside the `__main__` block (line 401), so when the module is imported, `wait_if_needed` raises NameError whenever a wait is due. The call that triggered it is never recorded | calls_per_minute = 1 and two calls at t = 0 and t = 1: the second raises instead of sleeping 59 s | sleep for the wait, then record the call | high, not executed | RateLimiter.WaitAsImported (RateLimiter.ImportedLimiterSecondCallRaises) | RateLimiter.APIRateLimiter.WaitIfNeeded (RateLimiter.DelayBounds) |
