# Lead-scoring data preparation, modelled in Dafny

This project models the data-preparation core of a lead-scoring pipeline.
The pipeline has two stages, each present twice in the repository.

- **Cleaning**: `create_training_data` in `itu_sdse_project/dataset.py`, copied in the
  `__main__` block of `data/interim/make_dataset.py`. It drops nine columns and turns
  empty strings in lead_indicator, lead_id and customer_code into missing values. It keeps
  the rows with a target, an id and source "signup", and casts six columns to object. It
  then splits the columns into continuous (float64/int64) and categorical (object) ones.
  Continuous columns are clipped to mean ± 2·std, mean-imputed and min-max scaled.
  Categorical columns get "None" for a missing customer_code and are mode-imputed. Finally
  `bin_source` is derived from `source` by a fixed map.
- **Encoding**: `split_training_data` in `itu_sdse_project/dataset.py`, copied as `main` in
  `itu_sdse_project/features.py`. It drops lead_id, customer_code and date_part. It replaces
  customer_group, onboarding, bin_source and source by their drop-first indicator columns,
  casts every column to float64 and splits off the label lead_indicator.

Both stages use the column helpers of `itu_sdse_project/helpers.py`:
`impute_missing_values`, `create_dummy_cols` and `describe_numeric_col`.

Modules:

- `Frames` (frames.dfy): a DataFrame as a `Frame` of columns and rows, each row a map
  from column name to `Value` (`None` is NaN). It holds the pandas column operations
  the stages use: drop, select, boolean filtering, column assignment and concat along
  the columns.
- `Ordering` (ordering.dfy): the order pandas sorts values in for `mode()` and
  `get_dummies`.
- `Stats` (stats.dfy): the pandas reductions: count, sum, mean, min, max, median,
  mode, and the sorted distinct levels of a column.
- `Helpers` (helpers.dfy): the three helpers.
- `Cleaning` (cleaning.dfy): the cleaning stage, stated as a single function `Clean`
  with its properties.
- `Encoding` (encoding.dfy): the encoding stage, stated as a single function `Encode`
  with its properties.
- `Dataset` (dataset.dfy): the two commands as methods with the source's loops. Each is
  proved to compute `Clean` or `Encode`.
- `Interim` (interim.dfy) and `Features` (features.dfy): the two copies. Each runs the
  same steps.
- `Pipeline` (pipeline.dfy): what the encoding stage can rely on when its input is a
  table the cleaning stage produced.

Errors are values: `MissingColumn` is pandas' KeyError (and, for `source`, the AttributeError of `data.source`), `NoMode` is `mode()[0]` on a
column with no present value, `NoSamples` and `NoFeatures` are MinMaxScaler refusing an
empty fit, and `NotFloat` is `astype("float64")` failing on a string.

## Model

| member | source | states |
|---|---|---|
| `Frames.DropUnion` | itu_sdse_project/dataset.py:24-30 | dropping one set of columns and then another equals dropping their union |
| `Frames.DropColumns` | itu_sdse_project/dataset.py:24-30 | `drop(cs, axis=1)` keeps the other columns in order, with their cells unchanged |
| `Frames.Select` | itu_sdse_project/dataset.py:71 | `data[cols]` has exactly the listed columns, in list order, with the cells of the source table |
| `Frames.FilterRows` | itu_sdse_project/dataset.py:34-36 | boolean row filtering keeps the columns and the passing rows in their original order |
| `Frames.SetCol` | itu_sdse_project/dataset.py:61 | assigning a column overwrites it in place, or appends it when new; every other cell is unchanged |
| `Frames.ConcatCols` | itu_sdse_project/dataset.py:57 | a column concat of two disjoint tables has the left columns then the right ones, and each cell comes from its side |
| `Ordering.CellLessIsStrictTotalOrder` | itu_sdse_project/helpers.py:87 | the sort order of cells is irreflexive, transitive and total, so the sorted levels of a column are well defined |
| `Stats.NullCount` | itu_sdse_project/helpers.py:67 | missing entries plus present entries make up the whole column |
| `Stats.Min` | itu_sdse_project/helpers.py:67 | `min()` is a value of the sample and no value is below it |
| `Stats.Max` | itu_sdse_project/helpers.py:67 | `max()` is a value of the sample and no value is above it |
| `Stats.MeanBounds` | itu_sdse_project/helpers.py:67 | the mean lies between the minimum and the maximum |
| `Stats.SortReals` | itu_sdse_project/helpers.py:79 | the sort behind `median()` is sorted and a permutation of its input |
| `Stats.MedianBounds` | itu_sdse_project/helpers.py:79 | the median lies between the minimum and the maximum, and is a sample value when the size is odd |
| `Stats.Mode` | itu_sdse_project/helpers.py:81 | `mode()[0]` is a most frequent value, and the least in sort order among equally frequent ones |
| `Stats.Levels` | itu_sdse_project/helpers.py:87 | the categories of a column are its present values, each once, strictly sorted |
| `Stats.FirstLevelIsLeast` | itu_sdse_project/helpers.py:87 | the first category is below every other present value |
| `Helpers.FillMissing` | itu_sdse_project/helpers.py:79 | `fillna(v)` replaces exactly the missing entries by `v` |
| `Helpers.ImputeMissingValues` | itu_sdse_project/helpers.py:72-82 | fails (NoMode) exactly for a non-numeric column with no present value. Otherwise keeps the length and every present entry, and fills every entry when a fill value exists |
| `Helpers.ModeFill` | itu_sdse_project/helpers.py:81 | succeeds exactly when a value is present; then every missing entry becomes the mode and present entries stay |
| `Helpers.MeanImputation` | itu_sdse_project/helpers.py:79 | with strategy "mean", every missing entry of a numeric column becomes the mean of the present numbers |
| `Helpers.MedianImputation` | itu_sdse_project/helpers.py:79 | any strategy other than "mean" fills a numeric column with the median; no strategy is rejected |
| `Helpers.ModeImputation` | itu_sdse_project/helpers.py:81 | a non-numeric column has every missing entry replaced by one present value, most frequent and least among ties, whatever the strategy |
| `Helpers.AllMissingNumericUnchanged` | itu_sdse_project/helpers.py:78-79 | a numeric column with nothing present comes back unchanged, since the fill is NaN |
| `Helpers.ImputeIdempotent` | itu_sdse_project/helpers.py:72-82 | imputing an imputed column again changes nothing |
| `Helpers.ImputeComplete` | itu_sdse_project/helpers.py:72-82 | a column without missing entries is returned as it is |
| `Helpers.MeanImputationKeepsMean` | itu_sdse_project/helpers.py:79 | mean imputation leaves the mean of the column as it was |
| `Helpers.MeanImputationExample` | tests/test_utilities.py:63-73 | [1, 2, NaN, 3, NaN] imputed with the mean is [1, 2, 2, 3, 2] |
| `Helpers.EncodedLevels` | itu_sdse_project/helpers.py:87 | `drop_first=True` makes an indicator for every present value except the least, each once |
| `Helpers.EncodedLevelsSorted` | itu_sdse_project/helpers.py:87 | the indicators follow the sorted categories, after the dropped first one |
| `Helpers.LevelsLeast` | itu_sdse_project/helpers.py:87 | a present value is the least of its column exactly when it is the first category |
| `Helpers.LeastIsFirstLevel` | itu_sdse_project/helpers.py:87 | for one present entry: it is the least value exactly when it is the first category |
| `Helpers.ConstantColumnNoLevels` | itu_sdse_project/helpers.py:87 | a column with a single value gets no indicator column |
| `Helpers.IndicatorNames` | itu_sdse_project/helpers.py:87 | one indicator name per level, with prefix `col`, all distinct |
| `Helpers.IndicatorFrame` | itu_sdse_project/helpers.py:87 | the `get_dummies` table: each indicator cell says whether the entry equals its level |
| `Helpers.CreateDummyCols` | itu_sdse_project/helpers.py:85-90 | the other columns stay in order and unchanged, `col` is replaced at the end by its indicators, and each indicator is true exactly in the rows holding its level |
| `Helpers.DummyAtMostOne` | itu_sdse_project/helpers.py:87 | in every row at most one indicator of `col` is set |
| `Helpers.DummyNoneSet` | itu_sdse_project/helpers.py:87 | no indicator is set exactly when the entry is missing or the dropped least value |
| `Helpers.DummyColsExample` | tests/test_utilities.py:46-59 | ID and Color = [Red, Blue, Red] give the columns ID and Color_Red, with Color_Red set in rows 0 and 2 |
| `Helpers.DescribeNumericCol` | itu_sdse_project/helpers.py:59-69 | Count is the number of present entries, and Missing (as written) the length. Mean, Min and Max are NaN when nothing is present, and otherwise the mean, minimum and maximum of the present numbers (so Min ≤ Mean ≤ Max) |
| `Helpers.DescribeMissingIsLength` | itu_sdse_project/helpers.py:67 | as written, Missing equals the number of missing entries only when nothing is present; [1.0, NaN] reports Missing 2 |
| `Helpers.DescribeNumericColCorrected` | itu_sdse_project/helpers.py:67 | with Missing counting the missing entries, Count + Missing is the length; Mean, Min and Max are those of the present numbers, or NaN when there are none |
| `Cleaning.Unblank` | itu_sdse_project/dataset.py:31-33 | `replace("", nan)` makes a cell missing exactly when it was missing or the empty string, and keeps it otherwise |
| `Cleaning.UnblankColumn` | itu_sdse_project/dataset.py:31-33 | the in-place replace changes only column `c`, each of its cells unblanked, and keeps the columns and the row count |
| `Cleaning.DropTwice` | itu_sdse_project/dataset.py:24-30 | the two `drop` calls in turn drop exactly the nine named columns |
| `Cleaning.PrepareSteps` | itu_sdse_project/dataset.py:24-33 | the two drops and three replaces, run column-wise, give the row-wise `Prepare` table |
| `Cleaning.PrepareRow` | itu_sdse_project/dataset.py:24-33 | a row after the drops and replaces has the raw keys minus the nine dropped columns |
| `Cleaning.PrepareRowFacts` | data/interim/make_dataset.py:19-28 | after the drops and replaces, the three id/target cells are unblanked and every other kept cell is as it was |
| `Cleaning.Prepare` | itu_sdse_project/dataset.py:24-33 | the table after the drops and replaces: the remaining columns in order, each row prepared |
| `Cleaning.FilterKept` | itu_sdse_project/dataset.py:34-36 | the three filters applied in source order keep the columns and filter the rows |
| `Cleaning.KeptRawIsKept` | data/interim/make_dataset.py:26-31 | a raw row survives exactly when lead_indicator and lead_id are neither missing nor "" and source is "signup" |
| `Cleaning.KeptRows` | data/interim/make_dataset.py:29-31 | the kept rows are exactly the surviving raw rows, in their original order |
| `Cleaning.FilterOrderIrrelevant` | data/interim/make_dataset.py:29-31 | the three row filters give the same rows in either order |
| `Cleaning.Survivors` | data/interim/make_dataset.py:29-31 | every surviving raw row has a target, an id and source "signup" |
| `Cleaning.KeptRow` | data/interim/make_dataset.py:29-31 | kept row `i` is the `i`-th surviving raw row, prepared |
| `Cleaning.PreparedSurvivor` | data/interim/make_dataset.py:26-31 | a surviving row keeps its lead_id and lead_indicator, has source "signup", and an unblanked customer_code |
| `Cleaning.CleanTypes` | itu_sdse_project/dataset.py:37-40 | after the loop, date_part and the six `vars` have dtype object, and every other dtype is unchanged |
| `Cleaning.VarIsCategorical` | data/interim/make_dataset.py:32-38 | each of the six `vars` survives the drops and lands in the categorical part, never in the continuous one |
| `Cleaning.SelectWhere` | itu_sdse_project/dataset.py:42-43 | `data.loc[:, mask]` keeps the columns that pass, in table order, with their cells |
| `Cleaning.SplitDisjoint` | data/interim/make_dataset.py:37-38 | no column is both continuous and categorical |
| `Cleaning.SplitCovers` | data/interim/make_dataset.py:37-38 | the two parts together hold exactly the columns whose dtype is object, float64 or int64 |
| `Cleaning.ClipColumn` | itu_sdse_project/dataset.py:45-47 | clipping keeps missing entries missing, numbers numbers and everything else unchanged |
| `Cleaning.ClipBounds` | data/interim/make_dataset.py:40-42 | with at least two numbers present, each clipped number lies within mean ± 2·std, and a number already inside is kept |
| `Cleaning.ClipContinuous` | itu_sdse_project/dataset.py:45-47 | the clip is applied column by column and keeps the shape |
| `Cleaning.ImputeContinuous` | itu_sdse_project/dataset.py:48 | every continuous column is mean-imputed |
| `Cleaning.FillCustomerCode` | itu_sdse_project/dataset.py:49 | a missing customer_code becomes "None"; every other cell is unchanged |
| `Cleaning.FilledRows` | data/interim/make_dataset.py:44 | after the `.loc` assignment, the categorical cells are the kept cells, with "None" for a missing customer_code |
| `Cleaning.ImputeCategorical` | itu_sdse_project/dataset.py:50 | fails with NoMode exactly when rows exist and some categorical column has no present value. Otherwise each column is its mode-fill, and an empty table passes untouched |
| `Cleaning.FillModes` | itu_sdse_project/dataset.py:50 | every column is replaced by its mode-fill |
| `Cleaning.ImputedPresent` | data/interim/make_dataset.py:45 | mode imputation keeps every present categorical cell |
| `Cleaning.MinMaxColumn` | itu_sdse_project/dataset.py:52-54 | scaling keeps the length and which entries are missing |
| `Cleaning.RescaleUnit` | itu_sdse_project/dataset.py:52-54 | a value between min and max is mapped into [0, 1], the minimum to 0 and the maximum to 1 |
| `Cleaning.MinMaxUnitRange` | data/interim/make_dataset.py:47-49 | after scaling, a cell is a number exactly when it was one, and every number lies in [0, 1] |
| `Cleaning.Scale` | itu_sdse_project/dataset.py:52-54 | the scaler fails with NoSamples on zero rows and NoFeatures on zero columns; otherwise each column is min-max scaled |
| `Cleaning.BinOf` | itu_sdse_project/dataset.py:59-61 | li and fb map to "socials", organic and signup to "group1", and anything else to NaN |
| `Cleaning.AddBinSource` | itu_sdse_project/dataset.py:61 | bin_source is set in every row to the map of source, and added as the last column when new |
| `Cleaning.Kept` | itu_sdse_project/dataset.py:24-36 | after the drops, replaces and filters, the columns are the raw ones minus the nine dropped |
| `Cleaning.CategoricalPart` | itu_sdse_project/dataset.py:43-49 | the object columns, with "None" for a missing customer_code |
| `Cleaning.ContinuousPart` | itu_sdse_project/dataset.py:42-48 | the float64/int64 kept columns in order, one row per kept row, each cell that of the column clipped to mean ± 2·std and then mean-imputed |
| `Cleaning.Clean` | itu_sdse_project/dataset.py:15-62 | the whole stage: MissingColumn exactly when a column it names is absent |
| `Cleaning.DisjointParts` | itu_sdse_project/dataset.py:42-43 | the two parts share no column, and source is categorical |
| `Cleaning.CleanOk` | itu_sdse_project/dataset.py:15-62 | a successful run had every named column present, had both the categorical imputation and the scaler succeed, and concatenated two parts with no column in common, source among the categorical ones |
| `Cleaning.CleanRowCount` | data/interim/make_dataset.py:50-52 | the output has one row per surviving raw row, and at least one |
| `Cleaning.CleanNoSamples` | data/interim/make_dataset.py:47-48 | with all named columns present, the stage fails with NoSamples exactly when no raw row survives |
| `Cleaning.CleanColumns` | data/interim/make_dataset.py:52-56 | the output columns are the categorical ones, then the continuous ones, in raw order, then bin_source |
| `Cleaning.CleanColumnSet` | data/interim/make_dataset.py:37-56 | a column is in the output exactly when it is bin_source, or a raw column outside the nine dropped whose dtype is object, float64 or int64 |
| `Cleaning.CleanDropsColumns` | data/interim/make_dataset.py:19-25 | none of the nine dropped columns reaches the output |
| `Cleaning.OutputCell` | data/interim/make_dataset.py:52-56 | a categorical cell passes the concat and the bin_source step unchanged |
| `Cleaning.OutputCellRight` | data/interim/make_dataset.py:52 | a continuous cell passes the concat and the bin_source step unchanged |
| `Cleaning.CategoricalRow` | data/interim/make_dataset.py:44-45 | in categorical row `i`, lead_id and lead_indicator are the survivor's and source is "signup". customer_code is "None" where the raw code was missing or blank, and is never mode-imputed |
| `Cleaning.CleanRow` | data/interim/make_dataset.py:26-56 | output row `i` against the `i`-th survivor: lead_id and lead_indicator unchanged, source "signup", bin_source "group1", and customer_code "None" where the raw code was missing or blank |
| `Cleaning.CleanScaled` | data/interim/make_dataset.py:47-52 | every number in a continuous output column lies in [0, 1] |
| `Encoding.DummyNames` | itu_sdse_project/features.py:15-20 | the indicator names the loop creates, column by column; each is an indicator of one of the looped columns |
| `Encoding.DummyNamesMembers` | itu_sdse_project/features.py:15-20 | a name is created exactly when it indicates a non-least present value of one of the looped columns |
| `Encoding.DummyEncode` | itu_sdse_project/dataset.py:73-75 | after the loop, the other columns are untouched and in order, followed by the indicators of each looped column, each true exactly where the row holds its level |
| `Encoding.DummyEncodeNext` | itu_sdse_project/dataset.py:73-75 | before each turn the column of that turn is still present, with no indicators yet |
| `Encoding.CastCell` | itu_sdse_project/dataset.py:80 | `astype("float64")` on one cell: numbers stay, booleans become 1.0/0.0, strings parse or fail with NotFloat, and NaN stays NaN |
| `Encoding.CastIdempotent` | itu_sdse_project/dataset.py:80 | casting a cast cell again changes nothing |
| `Encoding.CastColumn` | itu_sdse_project/dataset.py:80 | a column cast fails exactly when one of its cells fails; otherwise each cell is cast |
| `Encoding.CastFrame` | itu_sdse_project/dataset.py:79-81 | the cast of every column fails exactly when some cell fails; otherwise every cell is cast, with the shape kept |
| `Encoding.CastFrameOk` | itu_sdse_project/dataset.py:79-81 | a table whose every cell is the cast of the same cell of `f` is the cast of `f` |
| `Encoding.CatVars` | itu_sdse_project/dataset.py:71 | `data[cat_cols]` after the drop holds the four categorical columns, in that order, with their cells |
| `Encoding.OtherVars` | itu_sdse_project/dataset.py:72 | `data.drop(cat_cols)` after the drop keeps the remaining columns in order, with their cells |
| `Encoding.JoinedParts` | itu_sdse_project/dataset.py:77 | after the loop, `cat_vars` holds only indicator columns, none of which clashes with an other column |
| `Encoding.Joined` | itu_sdse_project/dataset.py:77 | the concat has the other columns first, then the indicators |
| `Encoding.CatVarsNames` | itu_sdse_project/features.py:17 | selecting the four columns does not change their levels |
| `Encoding.JoinedColumns` | itu_sdse_project/features.py:22 | the joined columns are exactly the other columns and the indicators |
| `Encoding.JoinedOther` | itu_sdse_project/features.py:22 | an other column's cell passes the concat unchanged |
| `Encoding.JoinedDummy` | itu_sdse_project/features.py:22 | an indicator cell says whether the row holds the indicated level of its categorical column |
| `Encoding.Encode` | itu_sdse_project/dataset.py:65-87 | the whole stage: fails only with MissingColumn or NotFloat; otherwise X and y have one row per input row |
| `Encoding.CastAndSplit` | itu_sdse_project/features.py:24-29 | the cast then `y = data["lead_indicator"]`, `X = data.drop(...)`: X and y have equal length |
| `Encoding.CastAndSplitOk` | itu_sdse_project/features.py:24-29 | the split succeeds exactly when the cast does and lead_indicator is present, and fails with NotFloat exactly when the cast fails |
| `Encoding.CastableShaped` | itu_sdse_project/features.py:24-26 | the joined table casts exactly when every cell outside the dropped and categorical columns casts |
| `Encoding.EncodeOk` | itu_sdse_project/features.py:14-29 | the stage succeeds exactly when the named columns and lead_indicator are present and the remaining cells cast, and fails with NotFloat exactly when they are present and some cell does not cast |
| `Encoding.EncodeColumns` | itu_sdse_project/features.py:22-29 | X holds the non-categorical, non-dropped, non-label columns in table order, then the indicators |
| `Encoding.EncodeCells` | itu_sdse_project/features.py:24-29 | row `i`: each other column holds its cell cast to float. Each indicator holds 1.0 exactly when the row has its level, 0.0 otherwise. y holds lead_indicator cast to float |
| `Encoding.EncodeNumeric` | itu_sdse_project/features.py:24-26 | every cell of X and every label is a float or NaN |
| `Cleaning.ClipImputeFills` | itu_sdse_project/dataset.py:45-48 | a float64/int64 column holding a number comes out of the clip and the mean imputation with no missing entry |
| `Cleaning.KeptNumber` | itu_sdse_project/dataset.py:24-36 | a float64/int64 column that holds a number in some surviving raw row still holds it after the drops, replaces and filters |
| `Cleaning.ContinuousComplete` | itu_sdse_project/dataset.py:42-48 | under that condition every cell of the continuous part is present |
| `Cleaning.CategoricalComplete` | itu_sdse_project/dataset.py:50 | after a successful mode imputation no categorical cell is missing |
| `Cleaning.ScaledComplete` | itu_sdse_project/dataset.py:52-54 | the scaler keeps a complete table complete |
| `Cleaning.CleanComplete` | tests/test_features.py:20-34 | when every float64/int64 column outside the nine dropped holds a number in some surviving row, the cleaned table has no missing cell, bin_source included |
| `Encoding.CastComplete` | itu_sdse_project/dataset.py:79-81 | the float cast keeps a complete table complete |
| `Encoding.SplitComplete` | itu_sdse_project/dataset.py:83-84 | X and y split from a complete table have no missing value |
| `Encoding.JoinedComplete` | itu_sdse_project/dataset.py:73-77 | the indicators are booleans, so encoding a complete table leaves it complete |
| `Encoding.EncodeComplete` | tests/test_features.py:20-34 | on a table without missing cells, X and y have no missing value |
| `Dataset.ObjectTypes` | itu_sdse_project/dataset.py:37-40 | the dtype loop computes `CleanTypes`: date_part and the six `vars` become object |
| `Dataset.DropAndUnblank` | itu_sdse_project/dataset.py:24-33 | the drops and replaces, step by step, compute `Prepare` |
| `Dataset.CreateTrainingData` | itu_sdse_project/dataset.py:15-62 | the step-by-step command computes `Clean`, including its errors |
| `Dataset.EncodeCategorical` | itu_sdse_project/dataset.py:73-75 | the loop over the columns of `cat_vars`, rebinding `cat_vars`, computes `DummyEncode` over the columns it started with |
| `Dataset.CastColumns` | itu_sdse_project/dataset.py:79-81 | the in-place cast loop computes `CastFrame`, and fails with NotFloat at the first column that does not cast |
| `Dataset.SplitTrainingData` | itu_sdse_project/dataset.py:65-87 | the step-by-step command computes `Encode`, including its errors |
| `Interim.MakeDataset` | data/interim/make_dataset.py:15-57 | the copied cleaning block computes `Clean` |
| `Features.BuildFeatures` | itu_sdse_project/features.py:10-34 | the copied encoding command computes `Encode` |
| `Pipeline.CleanNamesOnly` | data/interim/make_dataset.py:52-56 | cleaning adds only bin_source, so a table of plain column names stays one |
| `Pipeline.CleanNamed` | data/interim/make_dataset.py:32-38 | a cleaned table holds every column the encoding stage names, and lead_indicator |
| `Pipeline.CleanSourceColumns` | data/interim/make_dataset.py:29-56 | every cleaned row has source "signup" and bin_source "group1" |
| `Pipeline.CleanThenEncode` | itu_sdse_project/features.py:14-29 | encoding a cleaned table never raises KeyError: it succeeds exactly when the cast-as-is cells parse, and otherwise fails with NotFloat |
| `Pipeline.CleanedIndicators` | itu_sdse_project/features.py:15-20 | on a cleaned table, source and bin_source yield no indicator: every indicator of X belongs to customer_group or onboarding |
| `Pipeline.CleanThenEncodeComplete` | tests/test_features.py:20-34 | when every float64/int64 column holds a number in some surviving raw row, X and y built from the cleaned table have no missing value |
| `Pipeline.ConstantSourceIndicators` | itu_sdse_project/features.py:15-20 | with source and bin_source constant, the indicators of X are those of customer_group and onboarding |

## Left out

- Reading and writing CSV files is not modelled. The encoding stage takes the cleaning stage's table directly, rather than one re-read from `training.csv`. Such a re-read would re-infer dtypes, turn the dates back into text, and read the "None" strings back as NaN, since "None" is among `read_csv`'s default missing-value markers. `Pipeline` assumes the re-read table has plain column names (`NamesOnly`).
- dtype inference by `read_csv` is an input: the raw table comes with the dtype of each column.
- `pd.to_datetime(...).dt.date` (dataset.py line 23) is modelled only through its dtype, object. The dates themselves and a failed parse are not modelled.
- Numbers are exact reals, not float64: rounding in the mean, the clip bounds and the scaler is not modelled.
- The sample standard deviation is a parameter `std` of the cleaning stage, because it needs a square root.
- Python's `float()` on a string is a parameter `parse` of the encoding stage.
- Encoding.CastCell: a string that `float()` reads as NaN or ±infinity ("nan", "inf", "-inf", "infinity", in any case) is modelled as a present number, because `parse` returns a real.
- Ordering.CellLess: cells of different kinds are ordered by a fixed rank, numbers before booleans before strings. pandas' mixed sort in `mode()` and `get_dummies` also puts numbers before strings, but compares a boolean with a number numerically (0.5 < True); the model does not capture that order between booleans and numbers. pandas also takes `1.0` and `True` (and `0.0` and `False`) for the same value in `mode()` and `unique()`; the model keeps `Num(1.0)` and `Bool(true)` as distinct values, so a column mixing them has one level more in the model.
- Indicator names are structured (`Dummy(prefix, level)`), not the formatted string `"<col>_<value>"`. A clash between such a string and an existing column name is not modelled.
- `astype("category")` (dataset.py line 74) only changes the dtype, which `get_dummies` does not need.
- Logging, `print`, `warnings.filterwarnings` and the `typer` command wiring are not modelled.
- The row index is positional: `reset_index` (dataset.py lines 55-56) realigns both parts by position, and the model concatenates by position.
- Cleaning.Clean: every named column is checked up front, with the one error `MissingColumn`. The source raises KeyError for a missing column it indexes, but AttributeError for a missing `source`, which it reads as the attribute `data.source` (dataset.py line 36). The model does not tell the two apart, nor the order in which they would be raised.
- Training, model selection, prediction and the dvc download scripts are not part of this model.
- The binary-label check of tests/test_features.py depends on the values in the data, so it is not stated. The no-missing-values check is stated under the condition that makes it hold (`Pipeline.CleanThenEncodeComplete`).
- Helpers.ImputeMissingValues: the source's `method` parameter is named `strategy`, because `method` is a Dafny keyword.

## Findings

| source | as written | input that shows it | evidently intended | confidence | as-written member | corrected member |
|---|---|---|---|---|---|---|
| itu_sdse_project/helpers.py:67 | Missing is `x.isnull().count()`, which counts every entry, the length of the column | the column [1.0, NaN] reports Missing 2 | `x.isnull().sum()`, the number of missing entries (1 here), so that Count + Missing is the length | not executed | `Helpers.DescribeMissingIsLength` | `Helpers.DescribeNumericColCorrected` |
