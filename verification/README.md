# Plant-monitoring pipeline: cleaning and aggregation model

A Dafny model of the table-transformation core of `Task.py`, a batch script that fetches plant
disease/pest observations, cleans them and summarises them. The model covers:

- `clean_data`. It renames the Lithuanian source columns to semantic names. It coerces the
  observation date and the harm value, and a value that cannot be parsed becomes missing. It then
  drops every row whose plant name, harm value or date is missing.
- `get_raw`. This is `head(n)` with `n` defaulting to 10: the first `n` rows, or for a negative
  `n` every row but the last `-n`.
- `get_top_plants`. It sums harm per plant, sorts the sums in descending order and keeps the
  first `top_n` (5 by default) through the same `head`.
- `get_yearly_trend`. It sums harm per calendar year, with the years in ascending order.

Modules:

- `Wrappers` holds `Option` (pandas' NaN / NaT / None) and `Result` (for an operation that raises).
- `Seqs` holds the generic sequence vocabulary. That is `Filter` (boolean-mask selection),
  `IsSubsequence`, `Distinct`, `Count` (with `Occurrences` as the count of equal elements) and
  `Head` (`DataFrame.head`).
- `Records` holds the coerced row `Row`. Its `plant`, `harm` and `date` are `Option`s, and every
  other column passes through in `extras`. The module also holds the row predicates and the two
  grouping keys.
- `Frames` holds the raw data frame (column labels plus rows of cells), the fixed rename map and
  the per-row coercion.
- `Cleaning` holds `CleanRows`, the two drop steps, and `Clean`, the whole of `clean_data`, which
  raises `KeyError` when a required column is missing.
- `Grouping` holds a generic `groupby(key)['harm_value'].sum()` and its conservation-of-mass lemma.
- `Aggregation` holds the top-plants view and the yearly-trend view.
- `Scenario` is a worked example. A fetched frame under the Lithuanian labels holds two Wheat rows
  (10 and 5 in 2023) and one Corn row whose harm text `"abc"` does not parse. Cleaning it keeps the
  two Wheat rows, which give `[("Wheat", 15)]` and `[(2023, 15)]`. The parsers are parameters, so
  the example states what they make of its six texts as a precondition.

A raw cell is the text of a JSON value, or missing for `null` or an absent key. The two pandas
parsers (`to_datetime(..., dayfirst=True, errors='coerce')` and `to_numeric(..., errors='coerce')`)
are function-valued parameters (`Records.Parsers`) mapping text to `Option`. They are library
code, so the model fixes only that they never raise. Harm values are `real`.

Behaviours of `Task.py` that are easy to misread:

- A plant name that is the empty string is kept. `dropna` removes only missing values, not empty
  strings.
- `n` and `top_n` are Python ints and may be negative. Then `head(-k)` drops the last `k` rows
  (or groups) rather than returning nothing, and the model follows it (`Seqs.Head`).
- Cleaning the column-less frame that a failed fetch yields raises `KeyError`. It does not yield an
  empty table (`Cleaning.CleanEmptyFrame`).
- A frame that carries both the Lithuanian and the semantic name of the date or harm column ends up
  with two such columns after renaming. The coercion at Task.py:44 or Task.py:47 then raises
  (`Cleaning.CleanDateCollision`).
- The yearly trend is in ascending year order because `groupby` sorts its keys by default. The
  model sorts the years explicitly.

## Model

| member | source | states |
|---|---|---|
| Frames.RenameLabel | Task.py:32-41 | a label changes exactly when it is one of the eight source names, and a renamed label is never a source name again |
| Frames.Rename | Task.py:32-41 | renaming leaves every cell in place and every column outside the eight source names with its label |
| Frames.RenameCollision | Task.py:32-41 | two labels coincide after renaming only if they were equal or one is the source name of the other |
| Frames.RenamesInjective | Task.py:32-41 | no two source names map to the same semantic name |
| Frames.RenameDistinct | Task.py:32-41 | distinct labels stay distinct after renaming iff no source name appears beside its own semantic name |
| Frames.RenameIdempotent | Task.py:32-41 | renaming an already renamed frame changes nothing |
| Frames.RequiredLabelPresent | Task.py:32-41 | a semantic column exists after renaming iff its source name or the semantic name itself was present |
| Frames.RenameOccurrences | Task.py:32-41 | after renaming a semantic label occurs as often as its source name and the semantic name occurred together |
| Frames.IndexOf | Task.py:44-50 | a labelled column is read at its first occurrence |
| Frames.PlantCell | Task.py:50 | dropna over a duplicated plant label keeps a row only when every plant column is present |
| Frames.CoerceRow | Task.py:44-50 | the plant cell is not coerced and counts as present only when every plant column is; harm and date are present exactly when their cell is present and parses; all other columns pass through |
| Frames.CoerceAll | Task.py:44-47 | coercion is applied to every row, one coerced row per frame row, in order |
| Cleaning.CleanRows | Task.py:49-53 | the survivors are exactly the input rows with plant, harm and date present, and they form a subsequence of the input |
| Cleaning.CleanRowsIsOneFilter | Task.py:49-53 | the two drop steps equal the single filter "keep complete rows" |
| Cleaning.CleanRowsAppend | Task.py:49-53 | each row is kept or dropped on its own, so cleaning distributes over concatenation |
| Cleaning.CleanRowsDropRule | Task.py:44-53 | a row is dropped iff its plant, harm or date is missing |
| Cleaning.CleanRowsIdempotent | Task.py:49-53 | cleaning already-clean rows changes nothing |
| Cleaning.CleanRowsLength | Task.py:49-53 | the cleaned table has exactly as many rows as the input has complete rows |
| Cleaning.Clean | Task.py:31-54 | succeeds iff after renaming the date and harm columns each occur exactly once and the plant column exists; otherwise raises, in source order, KeyError (date absent), ValueError (date twice), KeyError (harm absent), TypeError (harm twice), KeyError (plant absent); on success the result is exactly the complete coerced rows in order, as many as there are complete rows |
| Cleaning.CleanSucceedsIff | Task.py:32-50 | cleaning succeeds iff the date and the harm column each arrive exactly once under their Lithuanian or semantic name, and the plant column under either |
| Cleaning.CleanEmptyFrame | Task.py:44 | the column-less frame of a failed fetch raises KeyError on the date column |
| Cleaning.CleanDateCollision | Task.py:32-44 | a frame with both date labels raises ValueError when the date is coerced |
| Seqs.Head | Task.py:59-60 | `head(n)` is a prefix: of length min(n, length) for n >= 0, and for negative n it drops the last min(-n, length) elements |
| Frames.Raw | Task.py:59-60 | the preview keeps the columns and a prefix of the rows (10 by default), with the length `head` gives, and stays well formed |
| Seqs.Filter | Task.py:50-53 | a boolean-mask selection keeps exactly the elements satisfying the mask |
| Seqs.FilterIsSubsequence | Task.py:50-53 | a mask selection keeps the survivors in their original order |
| Seqs.FilterFusion | Task.py:50-53 | two successive mask selections equal one selection by the conjunction |
| Seqs.FilterAllKept | Task.py:50-53 | a mask that holds everywhere selects everything |
| Seqs.FilterAppend | Task.py:50-53 | a mask selection distributes over concatenation |
| Seqs.FilterLength | Task.py:50-53 | a mask selection has as many elements as satisfy the mask |
| Grouping.Keys | Task.py:66 | the group keys list each present key exactly once, and no other keys |
| Grouping.Conservation | Task.py:66-67 | the group sums over all keys add up to the harm of every row that has a key |
| Grouping.CompleteRowsAllGrouped | Task.py:75-77 | on cleaned rows every row is grouped, by plant and by year, so grouped harm is all harm |
| Aggregation.PlantGroups | Task.py:66-67 | one entry per distinct plant name, each with the sum of harm over that plant's rows, with totals adding up to all grouped harm |
| Aggregation.InsertByTotal | Task.py:68 | inserting into a descending list keeps it descending and adds exactly the new entry |
| Aggregation.SortByTotal | Task.py:68 | the sorted groups are a rearrangement of the groups with totals non-increasing |
| Aggregation.HeadSelects | Task.py:68-69 | a prefix of a descending list holds totals at least those of every entry left out |
| Aggregation.TopPlants | Task.py:65-70 | top_n defaults to 5; length min(top_n, distinct plants) for top_n >= 0, and for negative top_n all but the min(-top_n, distinct plants) smallest; unique plants; non-increasing totals; each total is that plant's harm sum; every plant kept is at least every plant left out |
| Aggregation.SortedGroups | Task.py:66-68 | sorting keeps the plant set, the count and each plant's total |
| Aggregation.TopPlantsConservation | Task.py:65-70 | when every plant fits, the view's totals add up to the harm of all rows with a plant |
| Aggregation.SumTotalsPermutation | Task.py:68 | rearranging the groups does not change their total |
| Aggregation.InsertYear | Task.py:77 | inserting a year into a strictly increasing year list keeps it strictly increasing and adds only that year |
| Aggregation.SortYears | Task.py:77 | the group years come out strictly increasing with the same set of years |
| Aggregation.YearRows | Task.py:77 | one entry per listed year with that year's harm sum |
| Aggregation.YearlyTrend | Task.py:75-78 | years strictly increasing (hence unique) and exactly the years present; each total is that year's harm sum; totals add up to the harm of all dated rows |
| Scenario.ExampleCoerce | Task.py:32-47 | renaming and coercing the fetched example yields the two Wheat rows and a Corn row with missing harm |
| Scenario.ExampleCleanFrame | Task.py:31-54 | cleaning the fetched example succeeds and keeps the two Wheat rows in order |
| Scenario.ExampleClean | Task.py:44-53 | the example's row with unparseable harm is dropped and the two Wheat rows stay in order |
| Scenario.ExampleTopPlants | Task.py:65-70 | the example's top-plants view is Wheat with 15 under the default top_n, and empty for top_n = -1 |
| Scenario.ExampleTrend | Task.py:75-78 | the example's yearly trend is 2023 with 15 |

## Left out

- `fetch_data` (Task.py:16-26) is network I/O and JSON decoding. The model starts from a frame of text cells.
- Plotting (Task.py:83-106), including the `round(v, 1)` bar labels, is display-only. So is the seaborn theme (Task.py:9).
- The `__main__` driver and its console printing (Task.py:111-128) are left out for the same reason.
- The real parsing behind `to_datetime(dayfirst=True)` and `to_numeric` is library code and is a parameter here. pandas may infer one date format from a column's first value. A parser fixed per column models that, and the caller supplies it.
- Floating-point summation and rounding are not modelled. Harm values and sums are exact `real`s.
- The `year` column that `get_yearly_trend` adds to the caller's frame (Task.py:76) is an in-place side effect and is not modelled.
- Aggregation.TopPlants: the order among plants with equal totals is not fixed, because `sort_values` uses an unstable sort. The contract states sortedness and selection only.
- Aggregation.PlantGroups: lists plants in order of first appearance where pandas sorts the group keys. The difference is visible only through the unspecified tie order of the descending sort.
- Frames.IndexOf: when renaming makes two columns share a label other than the date or harm label, the model reads the first such column. pandas would keep both columns.
- Cleaning.Clean: when renaming duplicates the plant label, the model keeps a row only if every plant cell is present and takes the first as its plant, as `dropna` does. pandas keeps both columns, and the later `groupby` in `get_top_plants` raises. The row-level aggregation does not see that.
- Frames.CoerceRow: the coerced date keeps only its year, month and day. No time of day or time zone is kept.
- A JSON number in a cell is modelled by its text and parsed like a string.
