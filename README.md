# dhis2-era5land-simple: the inline rules of the import script, in Dafny

The import script downloads hourly ERA5-Land precipitation and turns it into
daily totals per DHIS2 organisation unit. It then posts those values to DHIS2's
`/api/dataValueSets` endpoint. Nearly every step is a library call. This
project models the rules the script writes itself, all in `main.py`:

- **Resume point** (`resume_point.dfy`). The script asks DHIS2 for the latest
  period it already holds. It keeps the first six characters of that period's
  id (`YYYYMM`), rewrites them as `YYYY-MM-01`, and starts the import at the
  later of that date and the configured start date. "Later" is Python's
  `max` on strings. When no period is on record, the configured date is used
  unchanged. The project proves that on `YYYY-MM-DD` strings the string order
  is the date order.
- **De-accumulation** (`deaccumulation.dfy`). ERA5-Land precipitation is
  accumulated since a daily reset. Each hourly value becomes the difference to
  the previous hour. Where that difference is negative, a reset happened, and
  the accumulated value itself is kept. The project proves a round trip: with
  the first value and the reset positions, the cumulative series is rebuilt
  exactly.
- **Settings** (`settings.dfy`). Environment lookup, the `DHIS2_DRY_RUN` flag
  and the `dryRun` query parameter made from it, the `DHIS2_IS_CUMULATIVE`
  flag, and the start-up check. That check collects the names of the five
  required variables that are unset or empty, in a fixed order, and the
  program exits with status 1 when the list is not empty.
- **Run decisions** (`import_run.dfy`). A run whose download returns no files
  posts nothing. Unit conversion is skipped when the two unit names are equal.
  A cumulative variable is de-accumulated before aggregation. The post carries
  `dryRun=true` or `dryRun=false`. `main` either exits or runs the import.

Python semantics are in `pystrings.dfy`: slicing with clamped bounds,
code-point string order (`<`, `max`), `lower()`, `str(bool)` and the
falsiness of `None` and `""`. Period ids and dates are strings, as in the
script. Series values are integers.

The resume point re-includes the latest imported month, so that month is
fetched and posted again (`ResumePoint.ResumeRefetchesLastMonth`).

## Model

| member | source | states |
|---|---|---|
| `PyStrings.Slice` | main.py:116 | Python slicing: the result's length is the clamped range's, and each character is the source character at that offset |
| `PyStrings.Less` | main.py:123 | Python's `<` on strings: a proper prefix is smaller, and no string is smaller than itself |
| `PyStrings.LessIsLexicographic` | main.py:123 | the order holds exactly when `a` is a proper prefix of `b` or the two agree up to a position where `a` has the smaller character |
| `PyStrings.LessTransitive` | main.py:123 | Python's string order is transitive |
| `PyStrings.Max` | main.py:123 | `max` of two strings returns one of its arguments, and neither argument is greater than the result in Python's string order |
| `PyStrings.MaxCommutes` | main.py:123 | swapping the arguments of `max` gives the same date, because the string order is total and asymmetric |
| `PyStrings.Lower` | main.py:78 | `lower()` keeps the length, turns each ASCII capital into its small letter, keeps every other character, and leaves no ASCII capital |
| `PyStrings.LowerIdempotent` | main.py:78 | lower-casing twice gives the same string as lower-casing once |
| `ResumePoint.LastImportedMonth` | main.py:115-116 | a month string exists exactly when DHIS2 reports a period, and it is the first six characters of the period id (all of it when shorter) |
| `ResumePoint.MonthStartDate` | main.py:121 | a month of at least six characters becomes 10 characters: its year, `-`, its month, `-01`; every result ends in `-01` |
| `ResumePoint.ImportStartDate` | main.py:116-126 | the start is never less than the configured date; with no non-empty period id it is that date; otherwise it is the derived date or the configured date, and not less than the derived date |
| `ResumePoint.MonthStartDateLayout` | main.py:116-121 | for an id of at least six characters, the date derived from its first six has the year, `-`, the month, then `-01` |
| `ResumePoint.NoPeriodKeepsStart` | main.py:116-126 | with no period on record, or an empty id, the import starts on the configured date exactly |
| `ResumePoint.PeriodGivesMaximum` | main.py:118-123 | with a period on record, the start is the string maximum of the derived date and the configured date: one of the two, and neither is greater |
| `ResumePoint.LessIsNumericLess` | main.py:122-123 | on strings with the same layout of digits and separators, the string order equals the numeric order of their digits |
| `ResumePoint.MonthStartDateIsIso` | main.py:120-121 | an id whose first six characters are digits yields a well-formed `YYYY-MM-DD` date |
| `ResumePoint.ImportStartIsLaterDate` | main.py:122-123 | for a well-formed configured date and period, the start is the chronologically later of the two dates |
| `ResumePoint.ResumeRefetchesLastMonth` | main.py:113-123 | when the latest imported month is after the configured start, the import starts on the first day of that same month, so the month is fetched again |
| `Deaccumulation.Increment` | main.py:158-160 | one step is the difference when the value did not drop and the value itself when it dropped; it is non-negative for a non-negative value and never exceeds it when both values are non-negative |
| `Deaccumulation.Deaccumulate` | main.py:158-160 | a series of length n ≥ 1 gives n-1 increments, and an empty series gives none |
| `Deaccumulation.DeaccumulateAt` | main.py:158-160 | increment i is `c[i+1] - c[i]` when that is not negative, otherwise `c[i+1]` |
| `Deaccumulation.DeaccumulateIsLocal` | main.py:158-160 | increment i depends only on `c[i]` and `c[i+1]` |
| `Deaccumulation.DeaccumulateNonNegative` | main.py:158-160 | non-negative accumulations give increments between 0 and the accumulated value they come from |
| `Deaccumulation.Reaccumulate` | main.py:158-160 | the inverse rebuilds one value more than there are increments, beginning with the given first value |
| `Deaccumulation.ReaccumulateDeaccumulate` | main.py:158-160 | de-accumulation loses nothing: the first value, the increments and the reset positions rebuild the cumulative series exactly |
| `Deaccumulation.IncrementsTelescope` | main.py:158-160 | without a reset, the increments sum to the last value minus the first |
| `Settings.LowerSpellsTrue` | main.py:78 | a string lower-cases to "true" exactly when it is "true" in some mix of upper and lower case |
| `Settings.ParseFlag` | main.py:78 | `getenv(key, default).lower() == "true"` holds exactly when the value, or the default when unset, spells "true" in any case |
| `Settings.DryRun` | main.py:78 | an unset `DHIS2_DRY_RUN` means a dry run; a set one means a dry run exactly when it spells "true" in any case |
| `Settings.DryRunParameter` | main.py:204 | the `dryRun` parameter is "true" for a dry run and "false" otherwise |
| `Settings.DryRunParameterRoundTrip` | main.py:204 | the parameter DHIS2 receives parses back to the flag it came from |
| `Settings.IsCumulativeAsWritten` | main.py:57 | as written, `DHIS2_IS_CUMULATIVE` is off exactly when it is set to the empty string |
| `Settings.IsCumulativeAsWrittenIgnoresFalse` | main.py:57 | as written, "false" and "False" leave de-accumulation on |
| `Settings.IsCumulative` | main.py:57 | the corrected flag is on when unset, and when set it is on exactly when it spells "true" in any case |
| `Settings.IsCumulativeHonoursFalse` | main.py:57 | the corrected flag is on when unset and off for "false" and "False" |
| `Settings.CumulativeReadingsDiffer` | main.py:57 | with `DHIS2_IS_CUMULATIVE=false` the loaded settings de-accumulate while the corrected flag is off |
| `Settings.Load` | main.py:39-78 | each required setting is `getenv` of its variable; start date, source and target units are the variable's value when set and 2025-01-01, "m", "mm" when unset; dry run follows the flag rule and de-accumulation follows the code's non-empty test |
| `Settings.Required` | main.py:216-226 | the five required settings, named in the order CDSAPI_KEY, DHIS2_BASE_URL, DHIS2_USERNAME, DHIS2_PASSWORD, DHIS2_DATA_ELEMENT_ID |
| `Settings.Report` | main.py:217-218 | one check reports nothing exactly when the value is set and non-empty, and otherwise reports the setting's name |
| `Settings.MissingNames` | main.py:216-226 | the report names at most one entry per setting checked |
| `Settings.MissingNamesMembership` | main.py:216-226 | a name is reported exactly when a required setting with that name is unset or empty |
| `Settings.MissingNamesEmpty` | main.py:228 | the report is empty exactly when all required settings are set and non-empty |
| `Settings.MissingNamesInOrder` | main.py:216-226 | the report keeps the order of the checked names |
| `Settings.MissingNamesAppend` | main.py:216-226 | checking two lists one after the other reports the two reports concatenated |
| `Settings.MissingNamesOneByOne` | main.py:216-226 | checking the five settings reports each single check's result, in turn |
| `Settings.RequiredReport` | main.py:216-228 | main()'s report names exactly the unset or empty required settings, in the checked order, and is empty exactly when all are present |
| `Settings.CollectMissing` | main.py:216-226 | the list built append by append is the report: exactly the unset or empty names, in the order CDSAPI_KEY to DHIS2_DATA_ELEMENT_ID, empty exactly when all are present |
| `ImportRun.Import` | main.py:113-204 | a run downloads from the computed resume date, and it stops without posting exactly when the download returns no files |
| `ImportRun.PostCarriesDryRun` | main.py:201-204 | a run that posts sends to `/api/dataValueSets` with `dryRun` "true" exactly for a dry run and "false" exactly otherwise |
| `ImportRun.NoFilesNoPost` | main.py:143-145 | when the download returns no files, nothing is posted, dry run or not |
| `ImportRun.ConversionSkippedForSameUnits` | main.py:182-189 | unit conversion happens exactly when the unit names differ |
| `ImportRun.SeriesHandedOn` | main.py:153-161 | a cumulative variable reaches aggregation as increments under the reset rule; any other variable reaches it unchanged |
| `ImportRun.RunMain` | main.py:213-231 | when `main` exits, it exits with status 1 and a non-empty list of missing names |
| `ImportRun.ExitsExactlyWhenSettingMissing` | main.py:216-231 | the program exits exactly when some required variable is unset or empty in the environment, and it then names exactly those variables, in the checked order |
| `ImportRun.DefaultIsDryRun` | main.py:78 | with `DHIS2_DRY_RUN` unset, any post asks DHIS2 for a dry run |

## Left out

- The climate data download (`era5_land.hourly.download`), its file cache and `os.makedirs`. These are network and disk I/O in a foreign library, so the list of files returned is a parameter of `ImportRun.Import`.
- The DHIS2 client calls (`get_org_units_geojson`, `analytics_latest_period_for_level`, `post`, `get_system_info`). These are network I/O. Only the `existing` field of the latest-period answer is modelled: `None` stands for any falsy value, and a present period has a string `id`. Two `KeyError` cases are not modelled: a response without an `existing` key (main.py:115), and a present period without an `id` key (main.py:116).
- Reading the GeoJSON, opening the files with xarray, the `earthkit` temporal and spatial reductions, and the bounding box. This is third-party raster and geometry code on floating-point arrays. De-accumulation is modelled on one grid cell's time axis, on integers. NaN and IEEE rounding are not modelled.
- The magnitude of the metpy unit conversion (main.py:185-187). It is floating point in a foreign unit library. Only the decision whether to convert is modelled.
- Payload building by `dataframe_to_dhis2_json` and the import counts in the response. The helper's code is not part of this model.
- `load_dotenv`, the export of `CDSAPI_URL` and `CDSAPI_KEY` into `os.environ`, and all logging. The environment is a `map` parameter. The log message listing the missing names is not modelled; the list itself is.
- The settings that only pass through to libraries (variable, value column, aggregation methods, end date, download folder and prefix). `int()` parsing of `DHIS2_TIMEZONE_OFFSET` and `DHIS2_ORG_UNIT_LEVEL`, with its `ValueError`, is also left out, because no modelled rule reads them.
- `PyStrings.LowerChar`: lower-cases ASCII letters only. Python's `lower()` maps the whole Unicode range, but no non-ASCII character lower-cases to a letter of "true", so the flag results are the same.
- scripts/run_notebook.py: it builds a fixed argument list and runs a subprocess. There is no rule in it to state.

## Findings

| source | as written | input that shows it | evidently intended | confidence | as-written member | corrected member |
|---|---|---|---|---|---|---|
| main.py:57 | `DHIS2_IS_CUMULATIVE` is read as a raw string and used as a condition at main.py:155, so any non-empty value counts as true | `DHIS2_IS_CUMULATIVE=false` still de-accumulates the series | a boolean flag like `DHIS2_DRY_RUN`: unset means on, "true" in any case means on, "false" means off | medium, not executed | `Settings.CumulativeReadingsDiffer` | `Settings.IsCumulativeHonoursFalse` |

`Settings.Load` and `ImportRun.RunMain` follow the code and use the as-written reading `Settings.IsCumulativeAsWritten`. The corrected reading is `Settings.IsCumulative`, which parses the variable with the same rule as `DHIS2_DRY_RUN`.
