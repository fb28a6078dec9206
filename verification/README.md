# Sales and customer cleaning pipeline, modelled in Dafny

The script `integracion_limpieza_datos.py` loads a sales table and a
customers table, inner-merges them on `cliente_id`, and cleans the merged
table in place:

- negative `importe` values become 0;
- missing amounts take the mean of the present ones;
- missing `nombre_cliente` values become `"Desconocido"`;
- `fecha_venta` is parsed, and rows whose date is missing, unparsable, before
  2000-01-01 or after "now" are dropped;
- the surviving dates are rewritten as `YYYY-MM-DD`.

The model has one module per component:

- `Dates` (`dates.dfy`): calendar dates, timestamps with a time of day, their
  order, the `YYYY-MM-DD` formatter and a reader for it.
- `Tables` (`tables.dfy`): sales rows, customer rows, merged rows, and tables
  as a column set plus rows.
- `Filtering` (`filtering.dfy`): order-preserving selection and counting.
- `Join` (`join.dfy`): the inner merge, and the merge that fails when the key
  column is missing.
- `Repair` (`repair.dfy`): negative correction, mean imputation and the name
  fill.
- `Normalize` (`normalize.dfy`): the four date steps. They are proved equal
  to a one-row-at-a-time normaliser, and proved idempotent for a parser that
  reads canonical `YYYY-MM-DD` text as that day at midnight (`Normalize.ReadsIso`).
- `Pipeline` (`pipeline.dfy`): `MergedFrame`, a class that holds the merged
  rows. Its methods change the rows in place, one method per block of the
  script. `Clean` runs the blocks under their column guards. `RunPipeline`
  merges and then cleans. `CleanRows` is the function that specifies `Clean`.
  The end-to-end invariants are proved about `CleanRows`.
- `Scenarios` (`scenarios.dfy`): worked examples: what the model computes on
  small tables, proved as lemmas.

How the model reads the script's behaviour:

- **Missing join keys.** Keys are compared with equality, so a missing
  `cliente_id` on a sale matches a missing `cliente_id` on a customer. This
  is what pandas' merge does; a SQL inner join would drop both rows.
- **Row order of the merge.** Sales order first, then customers order for one
  sale. This follows pandas 2.2 and later, whose inner merge preserves the
  order of the left keys. Earlier pandas versions grouped the rows with equal
  keys together. The set of merged rows is the same in every version.
- **When no amount is present.** The mean of no values is NaN, and
  `fillna(NaN)` changes nothing. The missing amounts therefore stay missing
  (`Repair.AllMissingStaysMissing`, `Pipeline.AllMissingAmountsStayMissing`).
  So "every amount is present and non-negative" holds only when the merged
  table has at least one amount.
- **Negatives counted in the mean.** The mean is taken after the negative
  correction, so the zeros that replaced negatives count in it
  (`Scenarios.TwoSalesScenario`: the mean is 0, from the corrected -5).
- **Time of day.** The upper bound of the date range is "now", which carries
  a time of day. A date-only value on today's date is kept
  (`Dates.MidnightInRange`). A timestamp later today than now is dropped
  (`Dates.SameDayBound`).
- **Out-of-range count.** The script counts the rows with `fecha < min` or
  `fecha > max`. It filters only when that count is positive. Because
  "not a time" compares false both ways, the count equals the number of
  rows removed only once the undated rows are gone, and the script drops
  them first (`Normalize.RangeStageFilters`).

## Model

| member | source | states |
|---|---|---|
| Dates.FormatDate | integracion_limpieza_datos.py:102-104 | the `%Y-%m-%d` rendering is ten characters: four digits, `-`, two digits, `-`, two digits |
| Dates.ParseIsoDate | integracion_limpieza_datos.py:102-104 | a canonical date string is read back only if it has the `YYYY-MM-DD` shape |
| Dates.FormatThenParse | integracion_limpieza_datos.py:102-104 | reading a formatted date back gives the same date |
| Dates.ParseThenFormat | integracion_limpieza_datos.py:102-104 | re-formatting a canonical date string gives the same string |
| Dates.InRangeDays | integracion_limpieza_datos.py:90-98 | a timestamp kept by the range filter falls on a day in [2000-01-01, today's date] |
| Dates.MidnightInRange | integracion_limpieza_datos.py:90-98 | a date-only value between 2000-01-01 and today's date, inclusive, passes the range test |
| Dates.SameDayBound | integracion_limpieza_datos.py:92-98 | on today's date, a timestamp passes exactly when it is not later than now |
| Tables.Combine | integracion_limpieza_datos.py:25 | a merged row loses nothing: the sale and, when the keys agree, the customer can be read back from it |
| Join.PairsFrom | integracion_limpieza_datos.py:25 | every enumerated pair has equal `cliente_id` on both sides; pairs come in strictly increasing order |
| Join.InnerJoin | integracion_limpieza_datos.py:21-25 | merged row k combines the sale and the customer of the k-th matching pair |
| Join.OnePerMatchingPair | integracion_limpieza_datos.py:21-25 | every (sale, customer) pair with equal ids yields exactly one merged row, so duplicate customer ids multiply rows |
| Join.UnmatchedSaleDropped | integracion_limpieza_datos.py:21-25 | a sale whose id no customer has contributes no merged row |
| Join.UnmatchedCustomerDropped | integracion_limpieza_datos.py:21-25 | a customer whose id no sale has contributes no merged row |
| Join.JoinSizeBound | integracion_limpieza_datos.py:25 | the merge has at most one row per (sale, customer) combination |
| Join.Merge | integracion_limpieza_datos.py:24-30 | the merge fails exactly when either table lacks `cliente_id`; otherwise it is the inner join over the union of the columns |
| Repair.CorrectNegatives | integracion_limpieza_datos.py:51-53 | every present negative amount becomes exactly 0; other amounts, the presence of amounts, the other columns and the row count are unchanged |
| Repair.NoNegativesUnchanged | integracion_limpieza_datos.py:51-53 | skipping the correction when no amount is negative is the same as applying it |
| Repair.MeanAmount | integracion_limpieza_datos.py:59 | the mean exists exactly when some amount is present, and times the number of present amounts gives their sum; its bounds are in `Repair.MeanBounds` |
| Repair.MeanBounds | integracion_limpieza_datos.py:58-59 | the mean exists exactly when some amount is present, and lies between any bounds of the present amounts |
| Repair.MeanNonNegative | integracion_limpieza_datos.py:56-60 | the mean of non-negative amounts is non-negative |
| Repair.FillAmounts | integracion_limpieza_datos.py:60 | missing amounts become the fill value; present amounts and every other cell stay |
| Repair.ImputeMissing | integracion_limpieza_datos.py:58-60 | present amounts and their rows stay; each missing amount becomes the mean, and stays missing when no mean exists; no row is removed |
| Repair.SanitizeAmounts | integracion_limpieza_datos.py:46-61 | no row is removed and only amounts change; the full amount invariants are in `Repair.SanitizedAmounts` |
| Repair.SanitizedAmounts | integracion_limpieza_datos.py:46-61 | no row is removed and only amounts change; non-negative amounts stay; a missing amount takes the mean of the corrected amounts; with any amount present, all amounts end present and non-negative |
| Repair.AllMissingStaysMissing | integracion_limpieza_datos.py:56-60 | with every amount missing, the amount repair changes nothing |
| Repair.FillNames | integracion_limpieza_datos.py:66-68 | every name ends present; a missing name becomes "Desconocido"; present names and the row count stay |
| Repair.NoMissingNamesUnchanged | integracion_limpieza_datos.py:66-68 | skipping the fill when no name is missing is the same as applying it |
| Normalize.ParseDates | integracion_limpieza_datos.py:78 | each date cell becomes the timestamp the parser makes of it, or "not a time"; no row is removed and no other column changes |
| Normalize.DropUndated | integracion_limpieza_datos.py:85 | every survivor is a dated input row, and the rows removed are as many as the undated ones; `Normalize.DropUndatedExactly` adds membership and order |
| Normalize.RangeStage | integracion_limpieza_datos.py:95-98 | survivors are input rows, never more of them; once every row is dated, every survivor lies in [2000-01-01, now] whether or not the filter ran; `Normalize.RangeStageFilters` gives the exact filter |
| Normalize.DroppedAreStamped | integracion_limpieza_datos.py:78-85 | after parsing and dropping, every row carries a timestamp |
| Normalize.DropUndatedExactly | integracion_limpieza_datos.py:81-86 | exactly the undated rows are removed; survivors keep their order; the count reported is the number removed |
| Normalize.RangeStageFilters | integracion_limpieza_datos.py:90-98 | with every row dated, the stage keeps exactly the rows in [2000-01-01, now] in order, and the reported count is the number removed |
| Normalize.FormatDates | integracion_limpieza_datos.py:104 | every row is kept and only its date changes; a timestamp becomes `YYYY-MM-DD` text that reads back as the timestamp's date |
| Normalize.NormalizeDates | integracion_limpieza_datos.py:78-104 | the four date steps in order leave no more rows than the input and every date clean: canonical text of a day in [2000-01-01, today] |
| Normalize.NormalizeDatesPerRow | integracion_limpieza_datos.py:73-105 | the four column-wide date steps equal a one-row-at-a-time normaliser applied in order |
| Normalize.EachRowSources | integracion_limpieza_datos.py:78-104 | each output row comes from an input row, each input row the normaliser keeps is in the output, and there are never more output rows than input rows |
| Normalize.NormalizedRowClean | integracion_limpieza_datos.py:78-104 | a kept row differs from its source only in the date, which is the canonical text of the day its original date parsed to, within range |
| Normalize.NormalizedDates | integracion_limpieza_datos.py:73-105 | the output holds exactly the rows whose date parses into [2000-01-01, now], each with a clean date, and never more rows than the input |
| Normalize.NormalizeIdempotent | integracion_limpieza_datos.py:102-104 | with a parser that reads `YYYY-MM-DD` text, normalising the output again changes nothing |
| Pipeline.RepairRows | integracion_limpieza_datos.py:46-69 | no row is removed and only amounts and names change, each only when its column is present; `Pipeline.RepairedInvariants` states the clean values |
| Pipeline.CleanRows | integracion_limpieza_datos.py:46-105 | no more rows than merged; every date clean when the date column is present; the rows untouched when no cleaned column is; `Pipeline.CleanedInvariants` states the rest |
| Pipeline.RepairedInvariants | integracion_limpieza_datos.py:46-69 | the repairs keep every row and its pass-through columns, and leave amounts and names clean under their column guards |
| Pipeline.CleanedInvariants | integracion_limpieza_datos.py:46-105 | cleaned table: no more rows than merged; amounts present and at least 0 when any amount was present; names present; dates canonical and in [2000-01-01, today]; each row descends from a merged row |
| Pipeline.AllMissingAmountsStayMissing | integracion_limpieza_datos.py:56-60 | with every amount missing, the cleaned table's amounts are all missing |
| Pipeline.MergedFrame.constructor | integracion_limpieza_datos.py:25 | the frame holds the merged table's columns and rows |
| Pipeline.MergedFrame.CorrectNegativeAmounts | integracion_limpieza_datos.py:51-53 | the rows become their negative-corrected version; the count returned is the number of negative amounts |
| Pipeline.MergedFrame.ImputeMissingAmounts | integracion_limpieza_datos.py:58-60 | the rows become their mean-imputed version; the mean is returned when an amount was missing |
| Pipeline.MergedFrame.FillMissingNames | integracion_limpieza_datos.py:66-68 | the rows become their name-filled version; the count returned is the number of missing names |
| Pipeline.MergedFrame.ParseDateColumn | integracion_limpieza_datos.py:78 | the date column becomes parsed timestamps |
| Pipeline.MergedFrame.DropUnparsableDates | integracion_limpieza_datos.py:81-86 | undated rows are removed; the count returned is how many, and rows left plus removed equals rows before |
| Pipeline.MergedFrame.FilterDateRange | integracion_limpieza_datos.py:90-98 | the out-of-range count is returned, and the rows are filtered to the range when it is positive |
| Pipeline.MergedFrame.FormatDateColumn | integracion_limpieza_datos.py:104 | every date becomes its `YYYY-MM-DD` text |
| Pipeline.CleanReport | integracion_limpieza_datos.py:46-100 | the printed counts: each is zero, or no mean, when its column is absent; a mean is reported only when some amount was missing; with the date column present, rows left plus the two drop counts equals rows before |
| Pipeline.MergedFrame.Clean | integracion_limpieza_datos.py:46-105 | the guarded blocks in order turn the rows into `CleanRows` of the old rows; the report is `CleanReport` of the old rows: negatives corrected (line 51), mean imputed (59), names filled (67), undated rows dropped (82), out-of-range rows dropped (95) |
| Pipeline.RunPipeline | integracion_limpieza_datos.py:24-105 | fails exactly when `cliente_id` is missing, before any repair; otherwise returns the cleaned merge, which meets the cleaned-table invariants and is no longer than the merge, together with the `CleanReport` of the merge |
| Scenarios.TwoSalesScenario | integracion_limpieza_datos.py:46-104 | the -5 amount is corrected to 0 and its row then dropped for the date "2022-13-40"; the other sale gets the mean 0, keeps "Ana" and "2021-05-01" |
| Scenarios.TooOldDropped | integracion_limpieza_datos.py:90-98 | a 1999-01-01 sale is dropped by the range filter |
| Scenarios.FutureDropped | integracion_limpieza_datos.py:90-98 | a 2099-01-01 sale is dropped by the range filter |
| Scenarios.DuplicateCustomerMultiplies | integracion_limpieza_datos.py:25 | two customers with one id turn one sale into two merged rows |
| Scenarios.MissingKeysMatch | integracion_limpieza_datos.py:25 | a missing sale id matches a missing customer id |

## Left out

- Reading the two CSV files and writing `dataset_integrado.csv` (lines 5-12, 117-124) are file I/O. So is the `exit()` after a failed load. A failed merge is modelled as a `Failure` result.
- The console reports are not modelled: `print`, `.info()`, `.head()` and `isnull().sum()` (lines 14-18, 32-35, 107-115 and the messages inside each block). The counts that those messages print are returned instead (`Pipeline.Report`, specified by `Pipeline.CleanReport`).
- How `pd.to_datetime(..., errors='coerce')` infers a format (line 78) is library code. The parser is a parameter `string -> Option<Instant>`. It stands for the element-wise parser the library settles on for the column.
- Reading the system clock for `pd.to_datetime('today')` (line 92) is replaced by the parameter `now`.
- Floating point: amounts are exact reals. NaN appears only as a missing value.
- Merge failures other than a missing key column are not modelled. Examples are key columns whose types cannot be compared, and `_x`/`_y` suffixes when both tables share a column name.
- Type errors pandas would raise are not modelled. Examples are a non-numeric `importe` compared with 0, and time-zone-aware dates compared with naive ones.
- Timestamps may have any year from 1 to 9999. Pandas timestamps span only 1677 to 2262, and pandas turns dates outside that span into "not a time" under `errors='coerce'`.
- The model gives chained `fillna(..., inplace=True)` on a column (lines 60, 68) its pandas 2 effect: the table is updated. Under copy-on-write that call would leave the table unchanged.
- `Normalize.FormatCell` leaves a text cell unchanged, where `.dt` on a text column would raise. `Normalize.OutOfRangeRow` and `Normalize.InRangeRow` treat a text cell as neither in nor out of range. The script parses the column before both steps, so neither case is reached.
- The column layout is fixed: `importe` and `fecha_venta` belong to the sales table, and `nombre_cliente` to the customers table. This is the layout the model assumes, as the table names suggest. The column guards test the merged table's columns. A layout that put `nombre_cliente` in the sales table would be guarded correctly, but the model would fill the customer-side field, which that table would not have.
- The DataFrame index labels are not modelled: they are not written to the output (`index=False`).
