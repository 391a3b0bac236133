# Institutional ownership dashboard: data core

This project models, in Dafny, the data-transformation core of a single-page
institutional-ownership dashboard. The dashboard reads two sheets of a
spreadsheet and builds views from them:

- the **ownership table**: one row per company per quarter;
- the **institution-holdings table**: one row per company per reporting
  institution.

What is modelled:

- **`load_data`** (`Ownership`): assigns the derived columns in place.
  `NetSharesChange` is bought − sold. `PercentChangeHeld` is
  NetSharesChange / outstanding × 100. `InstitutionOwnershipValue` is
  percent held / 100 × outstanding. `InstitutionShareHeld` gets the same
  formula, but only when the sheet lacks that column.
- **`load_institution_data`** (`Holdings`): for each of the four numeric
  columns that is present, sets every non-numeric or missing cell to 0,
  in place.
- **the views `main` builds** (`Views`):
  - the company/quarter view and its first and latest rows;
  - the summary metrics, and the change metrics computed as latest − first;
  - the company's ten largest institutional holders;
  - the latest row of each company, ranked by institutional percentage,
    for the industry peers and for the overall top ten.
- **`to_million`** (`Units`).

The pandas operations the views are made of are modelled once, in
`Ranking`: boolean-mask filtering, `sort_values`, `head`, `idxmax` and
`unique`.

Modelling choices:

- A DataFrame is a `seq` of typed rows. The two loaders are class methods
  over an `array` of rows, because the source rewrites the columns in place.
- A quarter date is a valid `(year, month, day)` triple.
  `Dates.Ordinal` is its chronological sort key.
- The `"%b %Y"` quarter label is the eight-character string itself
  (`"Mar 2024"`), with C-locale month abbreviations.
- A holdings cell is `Num(value)` or `Bad`. `Bad` stands for any cell
  that `pd.to_numeric(errors="coerce")` turns into NaN.
- `PercentChangeHeld` is `None` when shares outstanding is 0. That is where
  pandas produces inf or NaN.
- `idxmax` on a `groupby` group is modelled as a position in the whole
  table: the first row of the group with the latest `quarter_date`.

Two behaviours of the code that the model follows:

- `sort_values` at app.py:74, 168, 202 and 211 uses pandas' default
  sort, which is not stable. Every sort and every top-N therefore promises
  only that the result is ordered and a permutation (or a sub-multiset) of
  its input, and no order among equal keys.
- `pd.to_datetime(errors="coerce")` at app.py:23 keeps rows with
  unparseable dates as NaT, which pandas sorts last. The model has no
  invalid dates (see below).

## Model

| member | source | states |
|---|---|---|
| `Units.RoundHalfEven` | app.py:54 | the integer returned lies within one half of its argument |
| `Units.ToMillion` | app.py:53-54 | the result is within 0.005 of x / 1 000 000 and is a whole number of hundredths |
| `Units.ToMillionOdd` | app.py:53-54 | to_million(−x) = −to_million(x), so a negative change shows as the negated positive one |
| `Units.ToMillionMonotone` | app.py:53-54 | x ≤ y implies to_million(x) ≤ to_million(y) |
| `Units.ToMillionExamples` | app.py:53-54 | 2 500 000 becomes 2.5, −1 250 000 becomes −1.25, 0 becomes 0 |
| `Dates.OrdinalOrder` | app.py:74 | ordering by `Dates.Ordinal`, the sort key of `quarter_date`, is chronological order on (year, month, day), and equal keys mean equal dates |
| `Dates.QuarterLabel` | app.py:24 | `strftime("%b %Y")`: an eight-character label with a space after the month abbreviation |
| `Dates.MonthRoundTrip` | app.py:24 | the month can be read back from its `%b` abbreviation |
| `Dates.YearRoundTrip` | app.py:24 | the year can be read back from its four `%Y` digits |
| `Dates.LabelRoundTrip` | app.py:24 | parsing a quarter label gives back the date's month and year |
| `Dates.SameLabel` | app.py:24 | two dates have the same label iff they have the same month and year, so the quarter filter groups dates by calendar month |
| `Ownership.Derive` | app.py:27-32 | one loaded row: every source column unchanged; NetSharesChange = bought − sold; PercentChangeHeld is defined iff outstanding ≠ 0, and then PercentChangeHeld × outstanding = NetSharesChange × 100; InstitutionOwnershipValue × 100 = percent held × outstanding; InstitutionShareHeld is the sheet's value when the column exists, otherwise InstitutionOwnershipValue |
| `Ownership.DeriveAll` | app.py:27-34 | the loaded table has the same number of rows, and each row keeps all its source columns and is that row with the derived columns of `Ownership.Derive` |
| `Ownership.ReloadReproduces` | app.py:19-34 | loading the exported (already loaded) table again gives back the same table, derived columns included |
| `Ownership.OwnershipFrame.AddDerivedColumns` | app.py:27-32 | the frame's rows become the loaded rows of the old table, and the InstitutionShareHeld column exists afterwards |
| `Holdings.ToNumeric` | app.py:46 | a coerced cell is numeric: a number is kept and anything else becomes 0 |
| `Holdings.WithCell` | app.py:46 | writes one column of a row and leaves the other columns, symbol and owner alone |
| `Holdings.CoerceRow` | app.py:43-46 | every present numeric column becomes numeric (numbers kept, bad cells 0); absent columns, symbol and owner are unchanged |
| `Holdings.CoerceAll` | app.py:43-48 | no row is dropped or reordered; symbol and owner are kept; each present numeric column's cell is coerced (a number kept, a bad cell 0) and each absent column's cell is unchanged |
| `Holdings.CoerceIdempotent` | app.py:43-46 | coercing a coerced table changes nothing |
| `Holdings.CoercedColumnsAreNumeric` | app.py:44-46 | after the load every cell of a present column is a number |
| `Holdings.HoldingsFrame.CoerceNumericColumns` | app.py:43-46 | visiting the four columns in order and rewriting each present one in place leaves the rows equal to the coerced table |
| `Holdings.CompanyHoldings` | app.py:166 | exactly the holdings rows of the company, with their multiplicities |
| `Holdings.TopInstitutions` | app.py:166-168 | None iff the company has no holdings rows. Otherwise the result is drawn from the company's rows (a sub-multiset) and has min(10, count) of them, in non-increasing total_shares order. No row left out holds more shares than a row kept |
| `Ranking.Filter` | app.py:74 | a boolean-mask selection keeps exactly the rows satisfying the mask, with their multiplicities, as a subsequence |
| `Ranking.FilterAscending` | app.py:77 | masking a sorted table keeps it sorted |
| `Ranking.FilterAll` | app.py:77 | a mask true on every row keeps the table as it is |
| `Ranking.Insert` | app.py:74 | inserting into a sorted sequence gives a sorted sequence with one more element |
| `Ranking.SortBy` | app.py:74 | `sort_values` ascending gives a non-decreasing permutation of the input |
| `Ranking.SortDescBy` | app.py:168 | `sort_values(ascending=False)` gives a non-increasing permutation of the input |
| `Ranking.TopN` | app.py:168 | `head(n)` after a descending sort: min(n, length) elements, all of them when fewer, a sub-multiset, non-increasing, and no element left out ranks above a kept one |
| `Ranking.ArgMaxWhere` | app.py:200 | `idxmax` over a group (the rows satisfying a predicate), as a position in the table: a row of the group with the maximum key, and every earlier row of the group has a strictly smaller key |
| `Ranking.Distinct` | app.py:75 | `unique()`: the same values without repetition, as many as there are distinct values |
| `Ranking.SubMultisetDistinct` | app.py:210-211 | taking rows from a table with one row per company keeps one row per company |
| `Views.AscendingIsChronological` | app.py:74 | a table sorted by the date key is in chronological order |
| `Views.CompanyRows` | app.py:74 | exactly the company's rows, with their multiplicities, oldest quarter first |
| `Views.QuarterList` | app.py:75 | the quarter labels of the company's rows, each exactly once |
| `Views.CompanyView` | app.py:74-77 | exactly the rows of the company whose quarter label is selected, with multiplicities, oldest first, as a subsequence of the company's sorted rows |
| `Views.DefaultSelectionKeepsAll` | app.py:75-77 | with the default selection of every listed quarter, the view is all of the company's sorted rows |
| `Views.FirstAndLatest` | app.py:79-87 | None iff the view is empty; both ends are rows of the view; on a chronological view the first has the earliest and the latest has the latest quarter of every row; a one-row view gives the same row twice |
| `Views.ViewEnds` | app.py:79-87 | the view's ends are None iff no row matches the company and selection; otherwise both ends belong to the company and have selected labels, first ≤ latest, and every matching row's quarter lies between first's and latest's |
| `Views.Summary` | app.py:93-101 | the latest quarter's percentage and holder count as they are; its shares held, bought, sold, float and outstanding each within 0.005 of their value in millions; the "net share change" card is latest − first InstitutionShareHeld (not the NetSharesChange column), within 0.005 in millions |
| `Views.ChangeMetrics` | app.py:107-114 | each change is latest − first: exact for percentage and holders, within 0.005 in millions for the others |
| `Views.MillionsChange` | app.py:108-114 | to_million of latest − first is within 0.005 of that difference in millions |
| `Views.SingleQuarterNoChange` | app.py:107-114 | when first and latest are the same row, every change is zero |
| `Views.ChangesReversed` | app.py:107-114 | exchanging first and latest negates every change metric, rounded ones included |
| `Views.MillionsChangeReversed` | app.py:108-114 | to_million(a − b) = −to_million(b − a) |
| `Views.LatestOf` | app.py:199-200 | a row of the company whose quarter is the latest among the company's rows, and no row of the company with that same quarter comes earlier in the table (idxmax's first occurrence) |
| `Views.Representatives` | app.py:199-200 | one row per requested symbol, each that symbol's latest, the first such row in the table |
| `Views.Symbols` | app.py:210 | the group keys: every symbol of the table, once |
| `Views.LatestPerCompany` | app.py:210 | one row per company (as many rows as companies), each a row of the table, carrying the company's maximum quarter_date, and the first row of the company with that date; every company is represented |
| `Views.TopCompanies` | app.py:210-211 | min(10, number of companies) rows, one per company, each the company's latest quarter (its first row with that date), in non-increasing percentage order; no company left out ranks above one kept |
| `Views.PeerRows` | app.py:198 | exactly the rows of the industry that belong to another company |
| `Views.Peers` | app.py:198-202 | min(10, number of peer companies) rows. Each row is in the industry and is not the selected company, with at most one row per peer. That row carries the peer's latest quarter among its rows in the industry. Rows are in non-increasing percentage order, and no peer left out ranks above one kept |
| `Views.BuildDashboard` | app.py:74-211 | None, meaning "no data" (the dashboard stops), iff no row matches the company and the selected quarters. Otherwise the view is `Views.CompanyView`, its ends are `Views.FirstAndLatest` of it, and the summary, changes, institutions, peers and top companies are `Views.Summary`, `Views.ChangeMetrics`, `Holdings.TopInstitutions`, `Views.Peers` (for the latest row's industry) and `Views.TopCompanies`. Both ends belong to the company and have selected labels, and every matching row's quarter lies between first's and latest's. Every peer shares the latest row's industry and is another company |

## Left out

- Page layout, sidebar widgets, metric cards, tabs, charts, the radio button and the table displays (app.py:60-72 and the display parts of 89-216) are presentation only. The selected company and quarter set are parameters of the model.
- The file-existence check and `st.stop` (app.py:11-13), `pd.read_excel` (app.py:20, 41), the export with `to_excel`, and the download button (app.py:223-226) are file I/O. `Ownership.ReloadReproduces` states what a re-load of the export gives, assuming the export is lossless.
- `@st.cache_data` (app.py:18, 39) is framework memoisation and is not modelled.
- The f-string formatting of the metrics (app.py:93-114), the `OwnershipCombined` column (app.py:130-133) and the unused `NetChangeDiff` column (app.py:146) are display strings.
- `pd.to_datetime(..., errors="coerce")` (app.py:23) can turn a bad date into NaT. pandas sorts NaT last and formats it as NaN. The model assumes every `quarter_date` is a valid date. Days run 1-31 in every month, which does not affect the order.
- The `quarter_date_str` column (app.py:24) is not stored. `Dates.QuarterLabel` computes it from the date wherever it is used. `%b` is taken in the C locale.
- Dates.Date: years are limited to 1677-2262, the range of a pandas nanosecond timestamp; a date outside it becomes NaT, which is not modelled.
- Floating point is not modelled. Counts are unbounded integers, and percentages and derived values are exact reals. So no 64-bit overflow, no rounding error in the derived columns, and no NaN propagation from missing ownership cells.
- Units.ToMillion: rounds exact reals half-to-even. Python's `round` works on binary floats, where a decimal tie is usually not a tie. The contract therefore states only the ±0.005 bound and the 0.01 grid, not which way ties go.
- `pd.to_numeric` parsing numeric strings such as "1,234" is not modelled. A cell it can parse is `Num`, and any other cell, or a missing one, is `Bad`.
- Holdings.TopInstitutions: requires the company's `total_shares` cells to be numeric. That is what the load establishes (`Holdings.CoercedColumnsAreNumeric`). The KeyError pandas raises when the sheet has no `total_shares` column is not modelled.
- The order of the sorted and ranked tables among equal keys is not promised, because pandas' default sort is not stable. The order of the `groupby` groups before ranking is not promised either.
- Views.Peers: does not state `idxmax`'s first-occurrence choice among a peer's rows with the same latest date. It is stated for `Views.LatestOf`, `Views.LatestPerCompany` and `Views.TopCompanies`, and `Views.Peers` is `Views.TopCompanies` of the peer rows.
- When a company has no industry peers, the model returns an empty peers table. What pandas returns for `groupby(...).apply` on an empty frame depends on the pandas version and is not modelled.
