# Recruitment dashboards: a verified model

The repository is a set of Streamlit dashboards over recruitment-quota
tables. This project models the logic of three of them and proves what that
logic promises.

- `my_dashboard.py`, the daily recruitment dashboard.
  - Every allocation row is spread over its delivery window. Each day gets
    `floor(T/D)` and the first `T mod D` days get one more.
  - The quota keys and values are zipped into dynamic columns.
  - A Region or SEL code `'0'` is given a readable label.
  - The plan is narrowed to one date, then through six multiselects
    (project, country, region, age group, gender, SEL).
- `meu_dashboard.py`, the recruitment overview.
  - A quota tuple written as text is parsed into age group, SEL, gender and
    region.
  - Incomplete rows are dropped.
  - The sidebar filters by country, then age group, gender and SEL. Each of
    the last three is offered only while its column still has more than one
    value.
  - Two KPI totals are shown.
- `app.py`, the regression explorer.
  - The weekday becomes a categorical with a fixed order.
  - Every option list starts with the sentinel `Todos` ("all").
  - Three select boxes filter cumulatively by equality.

Files, one module each:

- `common.dfy` (`Common`): missing values (`Option`), mask selection
  (`Filter`), the order-preserving subsequence relation, column sums, and
  the lemmas used by every filter chain.
- `daily_plan.dfy` (`DailyPlan`): the plan generator. It is the imperative
  `GeneratePlan`, proved equal to the specification function `Plan`, with
  lemmas on totals, fairness and shape.
- `plan_dashboard.dfy` (`PlanDashboard`): dynamic columns, relabelling, the
  date and multiselect cascade (`FilterPlan`), and the goal KPI.
- `quota_text.dfy` (`QuotaText`): Python's `strip`, `replace(c, "")`,
  `split` and `join` on strings, with their algebra.
- `quota_dashboard.dfy` (`QuotaDashboard`): `extract_quota_data`, the
  `dropna` cleaning, the conditional filter chain and the KPIs.
- `regression_filters.dfy` (`RegressionFilters`): the categorical weekday,
  the option lists and the cumulative `Todos` filter.

Modelling choices:

- Dates are integer day offsets, and `today` is a parameter.
- A NaN cell is `None`. Pandas `==` with NaN is false, and `astype(str)`
  turns NaN into `'nan'`.
- `ast.literal_eval` is not modelled. Its result is taken as one of
  "unparsable", "a list or tuple of elements" (each kept as its `str()`
  text), or "some other value".
- Python's `//` and `%` floor. Both divisors here are at least 1, where
  Dafny's Euclidean operators agree with them.

A quota cell that is not a string does not stop the load: the parse
returns four missing fields (meu_dashboard.py:20-21). The row does not
survive the cleaning, though, since its age group, SEL and gender are
missing and `dropna` removes it (meu_dashboard.py:34, `UnparsedRowsDropped`).

Stripping the parentheses leaves text that neither starts nor ends with
one (`UnwrappedEnds`). The pieces cut from it may still do so: quotes are
deleted only after the parentheses are stripped, so the text `('(a')` yields
the first piece `(a` (`ParenBehindQuoteSurvives`).

## Model

| member | source | states |
|---|---|---|
| DailyPlan.EffectiveDays | my_dashboard.py:35-38 | the day count is at least 1; NaN or a value below 1 becomes 1; otherwise it is the integer part of the value |
| DailyPlan.GeneratePlan | my_dashboard.py:28-51 | the nested loop over rows and days appends exactly the entries of the specification `Plan`, row after row and day after day |
| DailyPlan.DailyGoalPositive | my_dashboard.py:39-46 | for a positive total a day's goal is never negative, and it is positive exactly on the first `T` days of the window |
| DailyPlan.DailyGoalBalanced | my_dashboard.py:39-44 | two days' goals differ by at most one, and a later day never gets more than an earlier one |
| DailyPlan.DaysUpToShape | my_dashboard.py:42-51 | the first `k` days emit `min(k, T)` entries; entry `j` is the source row with date `today + j` and that day's goal |
| DailyPlan.DaysUpToSum | my_dashboard.py:39-51 | the goals of the first `k` days sum to `k * floor(T/D) + min(k, T mod D)` |
| DailyPlan.RowPlanShape | my_dashboard.py:32-51 | a row with a total that is not positive, or is missing, yields nothing; otherwise it yields `min(T, D)` entries on consecutive dates from `today`, each with the row unchanged and a positive goal |
| DailyPlan.RowPlanDatesDistinct | my_dashboard.py:42-43 | no date is planned twice for one row; dates increase with the entry index |
| DailyPlan.RowPlanSum | my_dashboard.py:39-51 | the goals of one row sum to exactly its total (zero for a row that is skipped) |
| DailyPlan.RowPlanBalanced | my_dashboard.py:39-44 | the goals emitted for one row differ by at most one and never increase |
| DailyPlan.PlanTotal | my_dashboard.py:28-51 | the goals of the whole plan sum to the sum of the positive totals |
| DailyPlan.PlanEntriesFromRows | my_dashboard.py:46-51 | every plan entry carries a table row with a positive total, a positive goal, and a date inside that row's window |
| PlanDashboard.ZipMap | my_dashboard.py:66 | the keys of `dict(zip(keys, values))` are exactly the distinct keys |
| PlanDashboard.ZipMapLastWins | my_dashboard.py:66 | a key receives the value paired with its last occurrence |
| PlanDashboard.ExtractDynamicData | my_dashboard.py:61-69 | a failed parse, a non-sequence, or unequal lengths give the empty map; otherwise the map's keys are the quota keys |
| PlanDashboard.ExtractDynamicDataLastWins | my_dashboard.py:61-69 | for well-formed columns each key maps to the value at its last occurrence |
| PlanDashboard.Relabel | my_dashboard.py:76-79 | `'0'` becomes the caption, any other text is kept, and NaN becomes `'nan'` |
| PlanDashboard.Clean | my_dashboard.py:76-79 | only Region and SEL change, each relabelled with its own caption |
| PlanDashboard.ProcessPlan | my_dashboard.py:71-79 | one processed row per plan entry, in order, each with its dynamic columns attached (`Attach`: Region, age group, Gender and SEL looked up in the zipped map, a missing key giving `None`) and cleaned |
| PlanDashboard.ProcessPlanRelabels | my_dashboard.py:76-79 | after processing, Region and SEL are never missing (a NaN cell becomes `'nan'`); a `'0'` code gets its label; every other present value and every other column is unchanged |
| PlanDashboard.FilterPlan | my_dashboard.py:99-135 | the seven successive steps leave exactly the rows of the chosen date that pass every non-empty multiselect, in plan order |
| PlanDashboard.FilterStep | my_dashboard.py:105-135 | one multiselect narrows the rows that passed the earlier steps to those that pass it too; an empty selection changes nothing |
| PlanDashboard.FilterPlanSpec | my_dashboard.py:99-135 | the result is a subsequence of the day's rows; a row is shown if and only if it passes every step; with nothing selected the whole day is shown |
| PlanDashboard.GoalTotalSplits | my_dashboard.py:147 | the goal KPI of the selection (`GoalTotal`, the sum of the goals of the rows given) plus the goals of the day's hidden rows is the day's total goal |
| PlanDashboard.ProcessedGoalsAreThePlan | my_dashboard.py:71-79 | unpacking and relabelling keep every goal: the processed plan's goal total is the plan's |
| QuotaText.Strip | meu_dashboard.py:16 | `strip(cs)` never lengthens, and the result neither starts nor ends with a character of `cs` |
| QuotaText.StripLeftSuffix | meu_dashboard.py:16 | left stripping keeps a suffix, and everything it removes is in `cs` |
| QuotaText.StripRightPrefix | meu_dashboard.py:16 | right stripping keeps a prefix, and everything it removes is in `cs` |
| QuotaText.StripSlice | meu_dashboard.py:16 | `strip(cs)` is a slice of the string, and everything cut off on either side is in `cs` |
| QuotaText.StripChars | meu_dashboard.py:16 | stripping introduces no character |
| QuotaText.StripIdempotent | meu_dashboard.py:16 | stripping twice is stripping once |
| QuotaText.DeleteAll | meu_dashboard.py:16 | `replace(c, "")` leaves no `c` |
| QuotaText.DeleteAllSpec | meu_dashboard.py:16 | every other character is kept, with its count and in order |
| QuotaText.Split | meu_dashboard.py:16 | `split(sep)` always yields at least one piece |
| QuotaText.SplitShape | meu_dashboard.py:16 | there is one piece more than there are separators; no piece holds the separator; pieces hold only characters of the input |
| QuotaText.SplitJoin | meu_dashboard.py:16 | joining the pieces with the separator gives back the string |
| QuotaText.JoinSplit | meu_dashboard.py:16 | splitting a join of separator-free parts gives back the parts |
| QuotaDashboard.Unwrapped | meu_dashboard.py:16 | the text after stripping parentheses and deleting quotes holds no quote |
| QuotaDashboard.PiecesCount | meu_dashboard.py:16 | there is one piece more than there are commas in the unwrapped text |
| QuotaDashboard.ExtractQuotaData | meu_dashboard.py:14-21 | the parse returns the quota of the cell, with four `None` for a cell that is not a string |
| QuotaDashboard.PadToFour | meu_dashboard.py:17-19 | the `while` loop pads with `None` to four items and returns the first four |
| QuotaDashboard.QuotaOfTotality | meu_dashboard.py:15-21 | a non-string cell gives four `None`; a string always gives an age group |
| QuotaDashboard.QuotaPadding | meu_dashboard.py:17-19 | component `k` is `None` if and only if there are at most `k` pieces; otherwise it is piece `k`; with four or more pieces the extras are discarded |
| QuotaDashboard.PieceClean | meu_dashboard.py:16 | no piece holds a quote or a comma, and none has leading or trailing whitespace |
| QuotaDashboard.QuotaComponentsClean | meu_dashboard.py:16-19 | every present component of a parsed quota is clean in the same sense |
| QuotaDashboard.UnwrappedEnds | meu_dashboard.py:16 | the stripped text neither starts nor ends with a parenthesis, and the unwrapped text is a subsequence of it |
| QuotaDashboard.ParenBehindQuoteSurvives | meu_dashboard.py:16 | the text `('(a')` gives the age group `(a`: a parenthesis behind a quote survives |
| QuotaDashboard.SingleFieldPieces | meu_dashboard.py:16 | a parenthesised quoted clean field, `('v')`, parses to that field |
| QuotaDashboard.OneTupleQuota | meu_dashboard.py:16-19 | `('v',)`, the text Python writes for a one-element tuple, gives age group `v`, an empty SEL, and no gender or region |
| QuotaDashboard.RenderQuotaRoundTrip | meu_dashboard.py:16-19 | the text Python writes for a tuple of four clean fields (printable ASCII; no quote, backslash or comma; no surrounding whitespace) parses back to exactly those four fields |
| QuotaDashboard.DropIncomplete | meu_dashboard.py:34-36 | exactly the rows with both counts, an age group, a SEL and a gender are kept, in order, each converted to a clean row |
| QuotaDashboard.ExtractAll | meu_dashboard.py:23-25 | one extracted row per row read, in order, each carrying its parsed quota and its other fields unchanged |
| QuotaDashboard.LoadAndProcess | meu_dashboard.py:11-38 | the loaded table is the rows read, each with its quota parsed, filtered to the complete ones, in order, each cleaned |
| QuotaDashboard.UnparsedRowsDropped | meu_dashboard.py:20-34 | whatever the other rows hold, every loaded row is the cleaned form of a complete row read whose quota cell is a string, so a row with a non-string quota cell never reaches the dashboard |
| QuotaDashboard.ValuesUniform | meu_dashboard.py:65-78 | `len(sorted(unique())) > 1` holds exactly when the column has two different values |
| QuotaDashboard.Step | meu_dashboard.py:65-81 | a column step keeps every row when the column has at most one value or nothing is selected; otherwise it keeps, in order, the rows whose value is selected |
| QuotaDashboard.FilterQuotas | meu_dashboard.py:58-81 | the chain reassigning the filtered rows leaves exactly the country step (`ByCountry`, applied only for a non-empty selection) followed by the age group, gender and SEL steps |
| QuotaDashboard.NarrowColumn | meu_dashboard.py:65-81 | the guarded reassignment of one column gives exactly that column's step |
| QuotaDashboard.FilterQuotasSpec | meu_dashboard.py:58-81 | the result lies between the rows passing every selection and all rows, in subsequence order; every row passes the country selection; each other column either passes its selection or was left with one value; nothing selected keeps every row |
| QuotaDashboard.UniformColumnIgnored | meu_dashboard.py:65-69 | when the country step leaves a single age group, the age selection has no effect on what is shown |
| QuotaDashboard.NarrowedKeeps | meu_dashboard.py:65-81 | a column step's guarantee survives the later steps |
| QuotaDashboard.Overview | meu_dashboard.py:85-89 | no KPIs exactly when no row is shown |
| QuotaDashboard.OverviewSingle | meu_dashboard.py:88-89 | one row's KPIs are its completes and its people to recruit |
| QuotaDashboard.OverviewAdditive | meu_dashboard.py:88-89 | the KPIs of two parts of the shown rows add up to the KPIs of the whole, so each KPI is its column's sum |
| RegressionFilters.Categorize | app.py:18-20 | a day is kept if and only if it is one of the seven categories, and becomes NaN otherwise |
| RegressionFilters.LoadData | app.py:18-22 | the same rows in the same order; a recognised day is kept and any other day becomes NaN; the other columns are unchanged |
| RegressionFilters.UniqueSpec | app.py:32-33 | `unique()` lists each value of the column exactly once |
| RegressionFilters.UniquePrefix | app.py:32-33 | `unique()` keeps the order of first appearance |
| RegressionFilters.Options | app.py:32-33 | every option list starts with `Todos` |
| RegressionFilters.OptionsSpec | app.py:32-33 | after `Todos` come the distinct values of the column, in order of first appearance |
| RegressionFilters.LoadedOptions | app.py:32-33 | on the loaded table the country and recruitment options offer exactly the values of the rows read |
| RegressionFilters.DayOptions | app.py:35 | the day options are `Todos` followed by the seven weekdays, Segunda to Domingo, whatever the data |
| RegressionFilters.DayOptionsCover | app.py:18-35 | every day a loaded row holds is offered in the day options |
| RegressionFilters.CumulativeFilter | app.py:50-57 | the three conditional steps leave exactly the rows that pass all three select boxes, in order; the chart's `N` is the length of this result |
| RegressionFilters.FilterStep | app.py:52-57 | a select box other than `Todos` narrows the rows to those whose field equals it; `Todos` changes nothing |
| RegressionFilters.ShownSpec | app.py:50-57 | the result is a subsequence of the table, and a row is in it if and only if it passes every select box |
| RegressionFilters.ShownMatches | app.py:52-57 | with a selection other than `Todos`, every shown row has that exact, present value |
| RegressionFilters.ShownAll | app.py:52-57 | with all three boxes on `Todos` the table is shown unchanged |

## Left out

- A missing country in the quota overview: the model assumes every row has a country (`RawRow.pais` is a string). A missing country is not in the `dropna` subset (meu_dashboard.py:34). When such a row sits next to a row with a country, `sorted(df_filtered['pais'].unique())` at meu_dashboard.py:60 compares NaN with a string and raises `TypeError`, so the dashboard stops. The model does not capture that crash.
- Streamlit widgets, page layout, tabs, metrics formatting, `st.cache_data` and the download buttons: these are user interface and memoization.
- Plotly charts and the group-bys that feed them: these are presentation through a foreign library. This includes the chart title's `N=len(dff)` at app.py:67, whose value is the length of `CumulativeFilter`'s result.
- Reading the CSV files, `os.path.exists`/`getmtime` and `to_csv`: these are file I/O. The "no plan could be generated" warning (my_dashboard.py:53-55) is such user-visible I/O as well.
- Time-zone conversion and timestamp formatting (meu_dashboard.py:43-49): they rely on a foreign time-zone database.
- `date.today()` and `timedelta`: `today` is a parameter and dates are integer offsets.
- `ast.literal_eval`'s grammar: its outcome is an input of type `Literal`.
- pandas dtype coercion (`to_numeric`, `astype(int)`, and the float column a NaN forces): counts are integers, and a value `to_numeric` cannot read is `None`.
- The project id conversion `astype(str)` (my_dashboard.py:81-82): the project id is text throughout the model.
- `sorted(...)` and `dropna()` on the option lists of the multiselects: they order and prune what the user may pick, but a selection is modelled as any set of values.
- A missing Region, age_group, Gender, SEL or DayName column: the model assumes the column exists, and reads a key absent from one row's quota map as that row's `None`. Without the column the code reaches a `KeyError` at my_dashboard.py:117, 122, 127 and 132 or app.py:35 anyway, so the `if ... in columns` guards change nothing a user sees.
- The ordering of the weekday categorical (`ordered=True`): only equality is used by the filters.
- The "Active Quotas" KPI (my_dashboard.py:150): it is the number of rows `FilterPlan` returns.
- DropIncomplete: takes values in and returns a new sequence rather than mutating the frame in place (`dropna(inplace=True)`); the table is not shared, so no aliasing is lost.
- ExtractDynamicData: list and tuple elements are compared by their `str()` text. The model does not capture that an unhashable key (a list inside `cotas`) makes `dict()` raise and the row get `{}`. It also does not capture that Python merges keys that compare equal across types (`1`, `1.0`, `True`) while keeping `1` and `'1'` apart.
- Relabel: a cell's text is taken to be its value's `str()`. The model does not capture how pandas turns an integer column with missing cells into floats, after which `0` becomes `'0.0'` under `astype(str)` and is not relabelled.
- RenderQuotaRoundTrip: proved only for fields of printable ASCII characters. Python's `repr` also writes other printable Unicode characters unchanged, but Python's printable class is not modelled.
- Overview: states the KPI totals through `OverviewSingle` and `OverviewAdditive` rather than in its own contract.
- The regression coefficients and day counts of app.py are carried unchanged; nothing is computed from them.
