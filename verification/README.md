# Column bookkeeping of the prediction preparer

This project models, in Dafny, the column bookkeeping of a small
batch-prediction front end. A raw dataset goes through pre-fitted encoders
and is shaped into the feature matrix that a trained classifier expects.
The classifier's predictions, and its class probabilities when it has them,
are then attached to a copy of the dataset.

The model follows `prepare` in `main.py` and the output step after it:

- **Tables** (`tables.dfy`). A data frame is a sequence of distinct column
  names, a map from each name to its column of values, and a row count that
  every column shares. The module models the pandas operations the code
  relies on:
  - selecting columns by name, which fails with the absent names;
  - building a frame from a matrix;
  - side-by-side concatenation;
  - single and repeated column assignment;
  - projection.
- **One-hot naming** (`onehot.dfy`). The encoder's input columns come from
  `feature_names_in_` or, failing that, `feature_names`. They are flattened
  with the category lists into `{input}__{category}` names.
- **Remainder** (`remainder.dfy`). The dataset columns that no encoder
  consumes are kept in dataset order under a `remainder__` prefix, with
  their values unchanged.
- **Reconciliation** (`reconcile.dfy`). When the training header exists,
  each missing header column is zero-filled and the table is then projected
  to exactly the header.
- **Preparation** (`prepare.dfy`). The four blocks are encoded and joined,
  then reconciled and scaled.
- **Output** (`output.dfy`). The `prediction` column is added and, when
  the model offers `predict_proba`, one `prob_i` column per class.

The fitted encoders, the scaler and the model are opaque function values.
A transform receives the names of the selected columns and their values
(column-major). It returns its output columns, or `None` when it raises.
Because a transform sees the names, a scaler that rejects names it was not
fitted on can be expressed. The failures this model represents are `Error`
values in a `Result`: missing columns, missing metadata, too few input
names, a failing transform, a badly shaped output and a wrong-length output
column. Failures of loading an artefact or reading the header file are not
represented (see "## Left out").
`predict` and `predict_proba` are total functions in this model. The
following are parameters rather than effects:

- the loaded artefacts;
- whether the training header file exists, and its header;
- whether the model offers `predict_proba`.

## Error paths of the code

- `main.py:32` raises when the one-hot encoder has neither
  `feature_names_in_` nor `feature_names`. The model reports this as
  `MissingMetadata`.
- The naming loop at `main.py:34-36` reads one input name per category
  list. Input names beyond the number of lists take no part in naming, but
  they are still selected for the one-hot transform (`main.py:37`) and
  excluded from the remainder (`main.py:39`). Fewer input names than
  category lists is an `IndexError` at `main.py:35`, modelled as
  `TooFewInputNames`.
- A missing one-hot input column fails the selection `df[ohe_in]` at
  `main.py:37`, as a missing binary or ordinal column fails at
  `main.py:29-30`. All three are `MissingColumns`, naming the absent
  columns.
- Assigning a prediction or probability column whose length is not the row
  count raises in pandas (`main.py:87`, `main.py:91`). The model reports
  this as `LengthMismatch`.

## Model

| member | source | states |
|---|---|---|
| `Tables.Without` | main.py:39 | The filtered list holds exactly the names of the input that are not excluded, and stays duplicate-free when the input is |
| `Tables.WithoutConcat` | main.py:39 | Filtering distributes over concatenation, which with the one-name case makes it an order-preserving filter |
| `Tables.WithoutOrder` | main.py:39 | Two kept names appear in the same relative order as in the original list |
| `Tables.Select` | main.py:29-30 | `df[names]` succeeds exactly when every name is a column, and then returns those columns in the listed order; otherwise it fails naming exactly the absent names, in order |
| `Tables.Block` | main.py:29-30 | Building a frame from a matrix succeeds exactly when the matrix has one column per name, each of the expected height, and the names are distinct; the i-th name then holds the i-th column, and a width mismatch is a shape error (the cases where pandas builds a frame and this model fails are listed under Left out) |
| `Tables.SetColumn` | main.py:49 | `t[name] = vals` overwrites an existing column in place or appends a new one at the end; every other column keeps its values and no other column appears |
| `Tables.SetColumns` | main.py:87-91 | After assigning a run of distinct names, the old columns come first, the new names follow in order, each assigned name holds its column and every untouched column keeps its values |
| `Tables.SetColumnsSnoc` | main.py:87-91 | Assigning the whole run at once equals assigning the last column on top of the earlier assignments, so the all-at-once definition agrees with the sequential assignments of the code |
| `Tables.Project` | main.py:50 | `t[names]` for present, distinct names has exactly those columns in that order, with their values and the same row count |
| `OneHot.InputColumns` | main.py:32 | The input columns are `feature_names_in_` when present, otherwise `feature_names`; with neither the lookup fails |
| `OneHot.OneHotColumns` | main.py:33-36 | Naming succeeds exactly when there are at least as many input names as category lists; it then yields one name per category, with category j of list i at offset (categories before list i) + j, named input i + `__` + category |
| `OneHot.FlattenLength` | main.py:33-36 | The number of indicator names is the sum of the category-list lengths |
| `OneHot.FlattenAt` | main.py:33-36 | Category j of list i lands after every category of the earlier lists and is named after input i |
| `OneHot.ColorExample` | main.py:36 | An input `COLOR` with categories `RED`, `BLUE` yields exactly `COLOR__RED`, `COLOR__BLUE` |
| `Remainder.RemainderColumns` | main.py:39 | The remainder holds exactly the dataset columns outside the used roles, without duplicates, in dataset order |
| `Remainder.RenamedDistinct` | main.py:41 | Prefixing distinct names with `remainder__` keeps them distinct |
| `Remainder.RemainderBlock` | main.py:39-41 | The remainder block's columns are the prefixed remainder names in dataset order, with the dataset's row count; `remainder__c` holds exactly the values of dataset column c |
| `Preparation.Encode` | main.py:29-37 | An encoded block is built exactly when the input columns are present, the transform succeeds on their names and values, and its output has one column per distinct output name, each of the dataset's height. A missing column fails naming the absent columns, and a raising transform fails as such. On success the block has exactly the output names, the dataset's row count and the transform's output columns |
| `Preparation.Join` | main.py:43 | Concatenating four row-aligned blocks succeeds exactly when no name is repeated; the columns are the four lists in order, each keeping its block's values |
| `Preparation.Candidate` | main.py:26-43 | The candidate is built exactly when both fixed encodings can be built, the one-hot encoder records its inputs and has enough of them, the one-hot encoding can be built, and no name repeats across the four blocks. Its columns are binary ++ ordinal ++ one-hot names ++ renamed remainder, with the dataset's row count; remainder values are passed through; a missing binary column fails with those names |
| `Preparation.CandidateBinaryValues` | main.py:29 | The candidate's binary columns hold the binary encoder's output on the dataset's binary columns |
| `Preparation.CandidateOrdinalValues` | main.py:30 | The candidate's ordinal columns hold the ordinal encoder's output on the dataset's ordinal columns |
| `Preparation.CandidateOneHotValues` | main.py:32-37 | The k-th indicator column holds the one-hot encoder's k-th output, computed on the dataset's columns of the same input list that names the indicators |
| `Preparation.FeatureMatrix` | main.py:44-50 | With a header, the matrix has exactly the header's columns, zero for the header columns the candidate lacks and the candidate's values for the others; without one, it is the candidate; failures are the candidate's |
| `Preparation.Scale` | main.py:51 | Scaling succeeds exactly when the scaler succeeds on the matrix's names and values and returns one column per column, each of the matrix's height; a raising scaler fails as such; the result keeps the column names, in order, and the row count, and holds the scaler's output columns |
| `Preparation.Prepare` | main.py:23-52 | A feature-matrix failure is the preparer's failure. Otherwise the result is the scaler applied to the reconciled feature matrix, and it succeeds exactly when the scaler accepts that matrix. The prepared matrix has the dataset's row count and, with a header, exactly the header's columns |
| `Preparation.PrepareSucceeds` | main.py:23-52 | When the dataset and the encoders meet the candidate's conditions, the feature matrix is built and preparation succeeds exactly when the scaler accepts it |
| `Reconciliation.ZeroFill` | main.py:47-49 | The zero-fill loop appends the header columns the table lacks, in header order; it keeps every existing column and its values, and the new columns are zero in every row |
| `Reconciliation.Reconcile` | main.py:44-50 | With a header, the result's columns equal the header exactly: candidate values are kept for header columns, zeros are used for missing ones, and everything else is dropped; without a header the candidate passes through |
| `Reconciliation.ReconcileIsReconciled` | main.py:47-50 | The fill-then-project pipeline equals the direct definition "header columns, each taken from the candidate or zero" |
| `Reconciliation.ReconcileIdempotent` | main.py:47-50 | Reconciling an already reconciled table against the same header changes nothing |
| `Reconciliation.ReconcileNoOp` | main.py:47-50 | A table whose columns already equal the header, in order, is returned unchanged |
| `Output.DecimalInjective` | main.py:91 | Different class indices render as different decimal strings |
| `Output.ProbColumnsFresh` | main.py:87-91 | `prob_i` and `prob_j` differ for i different from j, and no `prob_i` is `prediction`, so no output column overwrites another added one |
| `Output.AddedColumnsDistinct` | main.py:87-91 | `prediction` followed by `prob_0 .. prob_{K-1}` is a list of distinct names |
| `Output.AssignStores` | main.py:87-91 | After the assignments `prediction` holds the predictions and `prob_i` holds column i of the probability matrix |
| `Output.Augment` | main.py:86-91 | Augmentation succeeds exactly when every added column has one value per row. The dataset's columns stay first, with their values unless overwritten by an added name. `prediction` holds the predictions and each `prob_i` its probability column. Without probabilities, the only added column is `prediction` |
| `Output.Run` | main.py:79-91 | A preparation failure stops the run with that failure. Otherwise the run succeeds exactly when the predictions and any probability columns have one value per dataset row. The output's columns are the dataset's, in order, followed by the added names that are new. Every dataset column that is not an added name keeps its values. `prediction` holds the model's predictions on the prepared matrix. With `predict_proba`, `prob_i` holds the estimate for class i; without it, `prediction` is the only added column |

## Left out

- The Streamlit page, file upload, CSV/spreadsheet reading, the default-file fallback and the display of the result (main.py:54-68, 93) are presentation and I/O. The dataset arrives as a `Table` argument; the loader's "no data available" outcome is not modelled.
- Model discovery and deserialisation (main.py:17-21, 25, 70-77) are filesystem work. The encoders, the scaler and the model are arguments, so the exception `joblib.load` raises for a missing or corrupt artefact at main.py:25 is not modelled; the "no models available" outcome and the model selection box are not modelled.
- The numeric behaviour of the binary, ordinal, one-hot and scaler transforms and of `predict`/`predict_proba` (main.py:29-30, 37, 51, 85, 89). These are opaque function values. A transform is given the selected column names and values, and only its success and the shape of its output are modelled. The `astype(object)` conversion and the sparse-to-dense `toarray()` call have no counterpart.
- The exception-to-message handling (main.py:79-83). A failure is an `Error` value that `Run` returns unchanged; the message text is not modelled.
- Pandas index alignment in `concat` (main.py:43). Every table is indexed by row position 0 .. rows-1, so the blocks are joined row by row.
- Tables.Block: building a frame from a transform's output (main.py:29-30, 37, 51) fails in two cases where `pd.DataFrame(arr, columns=names)` builds one. This is because a `Table` holds one column per distinct name and has no missing-value cells.
  - A matrix of another height fails with `ShapeMismatch`. This applies to the encoders' outputs in `Encode` and to the scaler's output in `Scale`. pandas would build that frame; `concat` would pad short blocks with missing values, and a scaler output of another height would simply be returned.
  - Repeated names fail with `DuplicateColumns`. Repeated indicator names therefore already fail in `Encode`; repeated names across blocks fail in `Join`. pandas allows repeated names. When such a name is not in the training header, the projection `Xcand[cols]` at main.py:50 drops it and the code succeeds where the model fails.
- Preparation.FeatureMatrix: requires the training header to be free of repeated names. Reading a header with pandas renames repeats, so a header never has them. A header file that exists but cannot be read (main.py:46) raises; this failure is not modelled, because the header is given as an optional list of names.
- OneHot.OneHotColumns: categories are represented by their string rendering, as the f-string formats them. How a float or missing-value category is rendered is not modelled.
- Reconciliation.ZeroFill: the zero assigned to a new column is the integer cell `Int(0)`. Broadcasting the scalar to every row is written out as a column of zeros.
- Output.Run: exceptions raised by `predict` or `predict_proba` (main.py:85, 89) are not modelled. Both are total functions of the prepared matrix, so a model that rejects the matrix cannot be expressed.
- Output.Run: a `predict` result whose length differs from the dataset's row count is an error of the augmentation step (`LengthMismatch`). The shape agreement between the prepared matrix and the model's expected input is the model's concern and is not modelled.
