# Production dashboard core, modelled in Dafny

The dashboard (`app.py`) shows plan against actual production per item. It loads a table of
production records once. It drops every row that lacks one of seven columns (`Name`,
`KolPlanYear`, `KolFaktVs`, `KolPlanM`, `KolFaktM`, `M`, `Graphic`). On every change of its two
dropdowns (schedule `Graphic`, month `M`) it builds a grouped bar chart with four series:

- yearly plan
- cumulative actual
- plan for the month
- actual for the month

This project models that pipeline and proves what it promises.

- `wrappers.dfy` — `Option` (a missing value, a cleared dropdown) and `Result` (a raised error).
- `seqs.dfy` — pandas boolean-mask selection `df[mask]` as `Mask`, with
  `MaskIndices`, the positions it keeps. Lemmas: exactly the rows that satisfy the mask are
  kept, unchanged and in order. Masking is decided row by row, and two masks in a row are one
  mask by their conjunction.
- `dataset.dfy` — `load_data`'s `dropna`: rows of optional fields become strict `Record`s.
- `months.dfy` — the `MONTHS` table and Python list indexing, negative indices included.
- `chart.dfy` — `update_graph`. `Chart` is the specification function. `UpdateGraph` is the
  step-by-step method: it masks by month, then by graphic, returns early when nothing is left,
  appends four traces and sets the layout. Its contract says it returns `Chart`'s value. The
  lemmas state the properties of `Chart`.
- `dropdowns.dfy` — the graphic dropdown: `Series.unique()` plus `str(g)` captions. The month
  dropdown: 1..12 with `MONTHS` captions and default 9.

Points where the model follows the code rather than an idealised reading of the dashboard:

- The month title is `MONTHS[selected_month - 1]` with Python list semantics. Months 1..12 name
  themselves. Months 0 down to -11 wrap around (0 gives "Декабрь"). Only months above 12 or below
  -11 raise `IndexError`. `MonthName` and `ChartRaises` state exactly this.
- The emptiness test comes before the lookup. A selection that matches nothing therefore returns
  the empty figure even for month 13 (`EmptyResult`, `ChartRaises`).
- The graphic filter applies only when the selection is truthy (`if selected_graphic:`). A
  cleared dropdown and the graphic id 0 both mean "no graphic filter" (`Truthy`,
  `FalsyGraphicIgnored`).
- A row is dropped when one of the seven columns is missing, and "missing" is what
  `pd.read_csv` reads as NaN with its default NA parsing. That includes an empty field and
  cells such as "NA", "N/A", "null", "None" and "nan", so a row with an empty `Name` is dropped.
  A `Name` made only of spaces survives. Month values in the data are not range-checked.

A repeated call with the same table and selection gives the same figure: `Chart` is a function
and `UpdateGraph` reads no state besides its arguments.

## Model

| member | source | states |
|---|---|---|
| `Dataset.ToRecord` | app.py:9 | a row has a strict view iff all seven columns are present, and that view is the same row, unchanged |
| `Dataset.AsRow` | app.py:9 | a strict record read back as a row has every required column present |
| `Dataset.LoadData` | app.py:6-10 | the loaded records are the masked complete rows, one for one and each unchanged |
| `Dataset.LoadDataMembership` | app.py:9 | a record is loaded iff it was a row of the input |
| `Dataset.LoadDataKeepsCompleteRows` | app.py:9 | the row at position i survives iff it is complete; survivors keep their relative order and their values |
| `Dataset.LoadDataConcat` | app.py:9 | rows are dropped independently of each other: loading a concatenation is concatenating the loads |
| `Dataset.RecordRoundTrip` | app.py:9 | a record read back as a row and filtered again is the same record |
| `Seqs.Mask` | app.py:63-65 | a boolean mask keeps no more rows than the table has, and every kept row satisfies the mask |
| `Seqs.MaskPreservesOrder` | app.py:63-65 | the masked rows are the table's rows at strictly increasing positions, unchanged |
| `Seqs.MaskKeepsExactly` | app.py:63-65 | a position is kept iff its row satisfies the mask |
| `Seqs.MaskMembership` | app.py:63-65 | a value is selected iff it is in the table and satisfies the mask |
| `Seqs.MaskConcat` | app.py:63 | masking distributes over concatenation of tables |
| `Seqs.MaskExt` | app.py:64-65 | masks that agree on every row select the same rows |
| `Seqs.MaskMask` | app.py:63-65 | masking by month and then by graphic equals masking once by both conditions |
| `Months.PyIndex` | app.py:111 | Python list subscript: succeeds iff -len <= i < len, returning the element at i mod len; otherwise an IndexError, in which the model records the index and length |
| `Months.MonthName` | app.py:111 | `MONTHS[month - 1]` succeeds iff -11 <= month <= 12; months 1..12 give their own name (9 gives "Сентябрь"), 0..-11 wrap (0 gives "Декабрь") |
| `Chart.Truthy` | app.py:64 | `if selected_graphic:` — a selection is truthy iff it holds a non-zero id: a cleared selection (None) and the id 0 are falsy |
| `Chart.Chart` | app.py:61-119 | what `update_graph` returns: a figure with no traces or with four, each trace's x and y as long as the selection; or the lookup's error |
| `Chart.UpdateGraph` | app.py:61-119 | the step-by-step build (month mask, graphic mask when truthy, empty check, four `add_trace`, `update_layout`) returns exactly `Chart`'s figure or error |
| `Chart.SelectedSpec` | app.py:63-65 | a record is shown iff its month is the selected one and, for a truthy graphic selection, its graphic is the selected one; shown records keep table order |
| `Chart.FalsyGraphicIgnored` | app.py:64-65 | a cleared or zero graphic selection gives the same chart as no selection, i.e. the month filter alone |
| `Chart.TruthyGraphicFilters` | app.py:63-65 | a non-zero graphic selection g shows the month-masked records masked again by `Graphic == g`, each of them of graphic g and of the selected month |
| `Chart.EmptyResult` | app.py:68-72 | nothing matches iff the result is the figure with no traces and the title "Нет данных для отображения", for any month |
| `Chart.ChartRaises` | app.py:68-111 | the build raises iff some record matches and the month is above 12 or below -11 |
| `Chart.ChartSeries` | app.py:75-117 | a non-empty selection in months 1..12 gives four traces named "Годовой план", "Факт накопительным итогом", "План за месяц", "Факт за месяц" with their fixed colours, each with x the selected names and y the matching column aligned record by record, title "Данные за " + the month's name, barmode "group", axis titles "Изделие" and "Значение" |
| `Dropdowns.FirstIndex` | app.py:35 | the first position at which a value occurs |
| `Dropdowns.Unique` | app.py:35 | `unique()` contains exactly the values of the column, each once |
| `Dropdowns.UniqueFirstAppearance` | app.py:35 | `unique()` lists values by increasing first appearance |
| `Dropdowns.IntToDecimal` | app.py:35 | `str(g)` is "0" for 0; otherwise a '-' exactly when g is negative, then only decimal digits, the first of them not '0' |
| `Dropdowns.IntToDecimalRoundTrip` | app.py:35 | `str(g)` loses nothing: parsing it back yields g |
| `Dropdowns.GraphicOptions` | app.py:35 | the graphic dropdown's options never offer a value twice |
| `Dropdowns.GraphicOptionsCover` | app.py:35 | every record's graphic is offered and every offered value is some record's graphic |
| `Dropdowns.GraphicOptionsOrder` | app.py:35 | graphic options are distinct, in order of first appearance, captioned "Выполнение плана по изделию " + str(g) |
| `Dropdowns.MonthOptions` | app.py:41-47 | the month dropdown has twelve options valued 1..12 in order |
| `Dropdowns.MonthOptionsSpec` | app.py:41-47 | twelve month options valued 1..12 in order, each captioned with the name the month lookup gives it; the default 9 is "Сентябрь" |

## Left out

- Reading `Data_test.csv` (UTF-8, `;` separator) is file I/O; the model takes the rows as input.
- `pd.read_csv`'s NA parsing decides what counts as missing (an empty field, "NA", "N/A",
  "null", "None", "nan" and the like). The model's `None` stands for whatever that parsing
  reads as missing, and it does not model the parsing itself.
- The file is assumed to have all seven required columns. When one is absent,
  `dropna(subset=...)` raises `KeyError` at startup; that error is not modelled (a `RawRow` always
  has the seven fields, and an absent column would only read as all `None`).
- The Dash app, its HTML layout, CSS style dicts, the callback wiring and `run_server` are UI
  and server plumbing. The table is passed to `UpdateGraph` as an argument, not read from a
  module global.
- plotly's `go.Figure`/`go.Bar` internals are a foreign library. The figure is a plain
  datatype with the fields the code sets.
- `paper_bgcolor` and `plot_bgcolor` are presentation styling and are not modelled.
- Columns other than the seven required ones are not modelled. pandas keeps them untouched
  in the surviving rows.
- The plan, actual, month and graphic values are modelled as integers. pandas dtypes, NaN
  beyond "missing or present" and floating point are not modelled. No arithmetic is done on
  these values.
- Dropdowns.IntToDecimal: models `str()` of an integer graphic id. If pandas had stored the
  column as floats, the caption would read "3.0"; that case is not modelled. String ids, and
  their truthiness (the empty string), are not modelled either.
