# Asset dashboard data rules, in Dafny

`streamlit_app.py` is a Streamlit dashboard for the asset sheet of PT PLN
UP3 Surabaya Barat. The user uploads a spreadsheet with the columns ASET,
BULAN, PERSEN, SISA PERSENTASE, MAXIMO, LTB, GAP, Status, Class Description
and Changed Date. The dashboard then draws charts from it on two pages. This
project models the rules that shape the table's numbers before they reach
the charts. It proves what those rules guarantee.

- **Table** (`Table.dfy`): one `Record` per sheet row. It defines boolean-mask selection
  (`Filter`), `unique()` (`Unique`, in first-appearance order), `values[0]`
  (`Head`) and a column (`Column`).
- **Loading** (`Loader.dfy`): `load_data` picks the decoder from the text after the
  file name's last dot. Splitting and joining on a separator are modelled
  exactly.
- **Home page filters** (`Filters.dfy`): the Status/Changed Month filter, the BULAN
  filter, and the per-asset and per-month selections.
- **Per-asset figures** (`Charts.dfy`): the clamped PERSEN / SISA PERSENTASE pie pair
  and the MAXIMO / LTB bar pair, both taken from the asset's first row.
- **Counts** (`Counts.dfy`, `Sorting.dfy`): `groupby().size()` followed by
  `sort_values(ascending=False)`, and `value_counts()`. Both are a
  first-appearance tally stably sorted by descending count.
- **Home page** (`Home.dfy`):
  - the summary column (class counts, "Total Assets", status counts);
  - the per-month MAXIMO/LTB subplots, a loop that fills column i+1 only for a
    month that has a row;
  - the growth series, the asset's rows sorted by calendar month of BULAN.
- **Month names** (`Months.dfy`): English month names, as `strftime('%B')` writes them.
- **Distribusi Aset page** (`News.dfy`): the loop over the table's distinct assets. It
  gives one block per asset that has a row in the selected BULAN. Each block holds
  the pie pair, the bar pair, the GAP total and that total written with thousands
  separators (`Format.dfy`).

The per-month loop and the asset loop are methods. Each is proved equal to
a specification function (`MonthTraces`, `NewsBlocks`). The lemmas beside
each function state what the page shows.

## Model

| member | source | states |
|---|---|---|
| `Charts.Clamp` | streamlit_app.py:31-36 | PERSEN above 100 gives (100, 0), below 0 gives (0, 100), otherwise both values pass through; the shown PERSEN always lies in [0, 100] |
| `Charts.ClampIdempotent` | streamlit_app.py:31-36 | clamping a clamped pair changes nothing |
| `Charts.ClampComplement` | streamlit_app.py:31-36 | SISA PERSENTASE changes only when PERSEN is out of range; a pair summing to 100 still sums to 100 |
| `Charts.PieFor` | streamlit_app.py:22-36 | no pie (None) iff no row carries the asset; a drawn pie has PERSEN in [0, 100] |
| `Charts.PieForFirstRow` | streamlit_app.py:23-28 | the pie pair is the clamped pair of the asset's first row |
| `Charts.FirstKpi` | streamlit_app.py:60-61 | None iff the selection is empty, else MAXIMO and LTB of its first row |
| `Charts.KpiFor` | streamlit_app.py:54-61 | no bar chart (None) iff no row carries the asset |
| `Charts.KpiForFirstRow` | streamlit_app.py:54-61 | the bar pair is MAXIMO and LTB of the asset's first row |
| `Table.Filter` | streamlit_app.py:19 | a selection is no longer than the table, holds only matching rows of the table, and holds every matching row |
| `Table.FilterSubsequence` | streamlit_app.py:19 | a selection keeps the table's row order |
| `Table.FilterMultiplicity` | streamlit_app.py:19 | a selection keeps each matching row exactly as often as the table has it, and no other |
| `Table.FilterIdempotent` | streamlit_app.py:19 | selecting again with the same mask changes nothing |
| `Table.Unique` | streamlit_app.py:78 | `unique()` has no duplicates, and a value is in it iff it is in the column |
| `Table.UniqueOrder` | streamlit_app.py:78 | `unique()` lists values by increasing position of first appearance |
| `Filters.HomeFilterSpec` | streamlit_app.py:208 | a row is kept iff its Status and its Changed Month are both selected, as often as the table has it, in table order |
| `Filters.BulanFilterSpec` | streamlit_app.py:215 | a row is kept iff its BULAN is selected, as often as the table has it, in table order |
| `Filters.AssetRowsEmpty` | streamlit_app.py:23-25 | the asset's selection is empty iff no row carries the asset |
| `Filters.AssetRowsFirst` | streamlit_app.py:27-28 | the first row of the asset's selection is the first row that carries the asset |
| `Filters.AssetRowsIdempotent` | streamlit_app.py:82-91 | selecting the asset again inside the figure functions changes nothing |
| `Sorting.SortBy` | streamlit_app.py:307 | the result is ordered by the key and is a permutation of the input |
| `Counts.GroupCountsSpec` | streamlit_app.py:222-223 | counts never increase along the table; one entry per distinct value and none for an absent value; each count is positive and equals the value's number of occurrences; counts add up to the number of rows |
| `Counts.TallyKeys` | streamlit_app.py:222 | the grouped keys are exactly the distinct values, in first-appearance order |
| `Counts.TallyCount` | streamlit_app.py:222 | each value's group size is its number of occurrences |
| `Counts.ClassDescriptionCounts` | streamlit_app.py:222-223 | the Class Description counts add up to the number of filtered rows |
| `Counts.StatusCounts` | streamlit_app.py:249 | the status counts add up to the number of filtered rows |
| `Home.HomeSummary` | streamlit_app.py:352-360 | nothing is shown iff no row passes the filter; "Total Assets" is the number of filtered rows, and both count tables add up to it |
| `Home.FilledTraces` | streamlit_app.py:270-282 | every trace sits in a selected month's column, titled with that month and carrying that slot's pair, and there is at most one trace per column, in column order |
| `Home.FilledColumns` | streamlit_app.py:270-282 | a column has a trace iff its slot is filled |
| `Home.MonthTracesMatch` | streamlit_app.py:270-282 | each trace of the month figure carries MAXIMO and LTB of its month's first row, is titled with that month and sits in that month's column i+1 |
| `Home.MonthTracesColumns` | streamlit_app.py:270-282 | the column of selected month i has a trace iff the asset has a row for that month; otherwise it stays empty |
| `Home.MonthBars` | streamlit_app.py:256-282 | a warning (None) iff the asset has no row; otherwise one subplot per selected month titled with it, holding exactly the traces of `MonthTraces` |
| `Home.GrowthSeries` | streamlit_app.py:297-301 | no series (a warning) iff the asset has no row |
| `Home.GrowthBadMonth` | streamlit_app.py:304 | a BULAN of the asset that is not a month name stops the graph, and is reported |
| `Home.GrowthSeriesWhen` | streamlit_app.py:298-304 | a series is drawn iff the asset has rows and all their BULAN values are month names |
| `Home.GrowthSeriesPoints` | streamlit_app.py:304-307 | the series is a permutation of the asset's rows, every point is the asset's and reads as a month, sorted by month |
| `Home.GrowthSeriesOrdered` | streamlit_app.py:307 | along the series the calendar month of BULAN never decreases |
| `Months.MonthName` | streamlit_app.py:196 | the names `strftime('%B')` can write, which a record's Changed Month is taken to hold, are the twelve English month names |
| `Months.MonthNumber` | streamlit_app.py:304 | a name reads as a month iff it is one of the twelve names, and then as the month of that name |
| `Months.MonthRoundTrip` | streamlit_app.py:304 | reading back the written name of month m gives m |
| `Loader.SplitPieces` | streamlit_app.py:162 | no piece of `split('.')` holds a dot; the last piece is the text after the last dot, or the whole name |
| `Loader.SplitJoin` | streamlit_app.py:162 | joining the pieces with the separator gives back the name |
| `Loader.Extension` | streamlit_app.py:162 | the extension has no dot, ends the name, and is the whole name or follows a dot |
| `Loader.ExtensionAfterLastDot` | streamlit_app.py:162 | the extension of `stem + "." + ext` is `ext`, whatever the stem holds |
| `Loader.ExtensionWithoutDot` | streamlit_app.py:162 | a name without a dot is its own extension |
| `Loader.LoadData` | streamlit_app.py:161-170 | "xlsx" selects openpyxl, "xls" selects xlrd, and any other extension yields None |
| `Loader.LoadDataByExtension` | streamlit_app.py:163-166 | a name ending in ".xlsx" loads with openpyxl and one ending in ".xls" with xlrd |
| `Filters.AssetRows` | streamlit_app.py:23 | `df[df['ASET'] == asset]`, as at lines 23, 55, 82, 257 and 298: `Table.Filter`'s contract (only and every matching row) with `AssetRowsEmpty`, `AssetRowsFirst` and `AssetRowsIdempotent` |
| `Filters.MonthRows` | streamlit_app.py:271 | `df[df['BULAN'] == bulan]`, as at lines 19 and 271: only and every row of that month, by `Table.Filter`'s contract |
| `Filters.HomeFilter` | streamlit_app.py:208 | the Status and Changed Month mask; `HomeFilterSpec` states membership, multiplicity and order |
| `Filters.BulanFilter` | streamlit_app.py:215 | the BULAN `isin` mask; `BulanFilterSpec` states membership, multiplicity and order |
| `Table.Head` | streamlit_app.py:27-28 | `values[0]`: None iff the selection is empty, else its first row |
| `Counts.GroupCounts` | streamlit_app.py:222-223 | the count table; `GroupCountsSpec` states its order, its entries, its counts and its total |
| `Home.MonthKpi` | streamlit_app.py:271-276 | MAXIMO and LTB of the month's first row, None without one, by `Charts.FirstKpi`'s contract |
| `Home.MonthTraces` | streamlit_app.py:270-282 | the traces the month loop adds; `MonthTracesMatch` and `MonthTracesColumns` state which columns get one and what it carries |
| `News.GapSum` | streamlit_app.py:96 | `['GAP'].sum()`; `GapSumAppend` and `GapSumPermutation` state that it adds over parts and ignores row order |
| `News.Block` | streamlit_app.py:84-97 | the three columns of one asset; `BlockContents` states the pie pair, the bar pair, the GAP sum and its text |
| `News.ShownAssets` | streamlit_app.py:78-83 | the assets that get a block; `NewsShown`, `NewsOrder` and `NewsDistinct` state which, in what order, once each |
| `News.NewsBlocks` | streamlit_app.py:78-98 | the blocks of the page; `NewsBlockContents` states that block k is the block of the k-th shown asset |
| `Format.FormatThousands` | streamlit_app.py:97 | `"{:,.0f}"` on an integer; `FormatShape` states its shape and `FormatRoundTrip` its inverse |
| `Loader.Split` | streamlit_app.py:162 | `split('.')`: at least one piece; `SplitPieces` and `SplitJoin` state the pieces and the inverse |
| `Format.Decimal` | streamlit_app.py:97 | the decimal form of a total is at least one digit |
| `Format.DecimalRoundTrip` | streamlit_app.py:97 | reading the decimal form back gives the number |
| `Format.GroupStrip` | streamlit_app.py:97 | removing the separators of grouped digits gives the digits |
| `Format.GroupStartsWithDigit` | streamlit_app.py:97 | grouped digits open with a digit, never with a comma |
| `Format.GroupShape` | streamlit_app.py:97 | grouped digits open with a digit, have a comma exactly every fourth place from the right and digits elsewhere |
| `Format.FormatShape` | streamlit_app.py:97 | the formatted total is a minus sign when negative, then well-formed thousands groups: a leading group of one to three digits, never a leading comma, then groups of three |
| `Format.FormatDigits` | streamlit_app.py:97 | without its commas the formatted total is the sign and the decimal digits of its magnitude |
| `Format.FormatRoundTrip` | streamlit_app.py:97 | removing the commas from the formatted total and reading it back gives the total |
| `Format.FormatZero` | streamlit_app.py:97 | a zero total is shown as "0" |
| `News.GapSumAppend` | streamlit_app.py:96 | the GAP sum over two consecutive parts is the sum of the parts' sums |
| `News.GapSumPermutation` | streamlit_app.py:96 | the GAP sum does not depend on the order of the rows |
| `News.NewsPage` | streamlit_app.py:78-98 | the asset loop produces exactly the blocks of `NewsBlocks` |
| `News.ShownMembers` | streamlit_app.py:81-83 | a candidate asset gets a block iff it has a row in the month's selection |
| `News.ShownOrder` | streamlit_app.py:81-83 | the shown assets are candidates and keep the candidates' order |
| `News.NewsShown` | streamlit_app.py:78-83 | the page shows a block for an asset iff some row of the selected BULAN carries that asset |
| `News.NewsOrder` | streamlit_app.py:78-81 | blocks appear in order of their asset's first appearance in the table |
| `News.NewsDistinct` | streamlit_app.py:78-81 | no asset gets two blocks |
| `News.BlockContents` | streamlit_app.py:84-97 | a block shows the clamped pie pair and the MAXIMO/LTB pair of the asset's first row of the month, the sum of its GAP, and that sum formatted so that it reads back as the sum |
| `News.NewsBlockContents` | streamlit_app.py:81-98 | block k is the block of the k-th shown asset, from that asset's rows of the selected month, which exist |

## Left out

- Streamlit and Plotly are not modelled. This covers page configuration, CSS, the navbar, sidebar widgets, columns, metrics, warnings, `st.stop`, caching, figure layout, colours and titles. Only the numbers handed to the figures are modelled. `MonthBars` keeps the figure's column count, subplot titles and trace list. `NewsPage` keeps each block's values.
- User selections are parameters: the selected statuses, months, BULAN values and asset. Choosing the page through the `page` query parameter (streamlit_app.py:191-192) is not modelled.
- `pd.read_excel` is not modelled. It is a foreign spreadsheet decoder, so only the choice of engine is. The uploaded file is represented by its name.
- The "Changed Month" derivation (streamlit_app.py:195-196) is not modelled. `to_datetime` parses "Changed Date", and that parser is library code. A `Record` holds the derived month name directly.
- `Months.MonthNumber` stands in for `to_datetime(BULAN + ' 2024', format='%B %Y')`, and it matches the English month names exactly. strptime's case-insensitive matching is not modelled. Neither is the datetime value, whose year is fixed and so never affects the order.
- PERSEN, SISA PERSENTASE, MAXIMO and LTB are mathematical reals, not floats. GAP is an integer. `"{:,.0f}"` is modelled only on integer totals, so its rounding of fractional totals is not modelled.
- NaN handling is not modelled: `dropna()` on the option lists, and groupby dropping missing keys.
- `Counts.GroupCountsSpec`: `groupby` (with its default `sort=True`) sorts its keys, but `sort_values` then uses quicksort, which is not stable, and `value_counts` makes no promise about ties either, so the order of equal counts is unspecified. The model fixes it to first appearance, and the contract says nothing about ties.
- `Home.GrowthSeriesPoints`: `sort_values` defaults to quicksort, which is not stable, so the order of rows with equal months is unspecified. The model's sort is stable, and the contract says nothing about ties.
- `Home.GrowthSeries` reports a bad name as `BadMonth` and draws nothing. This models the exception `to_datetime` raises, which the source does not catch, and it stops the page.
- Assigning the parsed BULAN back into the asset's slice (streamlit_app.py:304) is not modelled. The model sorts by the parsed month without changing the rows.
