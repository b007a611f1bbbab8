# Sales report cleaning and aggregation, in Dafny

This project models the data-processing core of a small sales-report
repository. The repository has two scripts over electronics-store order
files. Each file has the columns Order Date, Product, Quantity Ordered,
Price Each and Purchase Address.

- `app.py` is a dashboard. It concatenates the uploaded files. It cleans the
  rows defensively, dropping anything that does not parse. It derives the
  Month, Hour, Minute, Count, Sales and City columns. It reduces the result
  per month, city, hour and product for five charts.
- `store_sales_analysis.py` is the notebook version of the same analysis. It
  merges files in a loop and drops all-empty rows and repeated header lines.
  It converts columns without a fallback, so bad text raises. Its Month is
  the integer value of the first two characters of the date text. Its Sales
  is the quantity truncated to an integer times the price. Its City label
  has two spaces before the parenthesis.

The Dafny modules follow that structure:

- `Wrappers` holds `Option`, the model of a cell that may be NaN.
- `PyStr` holds the Python string operations the scripts rely on:
  - `str.split` with a one-character separator, which keeps empty pieces;
  - `str.strip` with a character set;
  - `int()` on text;
  - slicing `s[0:n]`;
  - `startswith`.
- `Records` holds the raw row and the parsed timestamp. It also holds
  `pd.concat` and the text formats of addresses and order dates found in
  the sample data.
- `Aggregate` holds the pandas reductions `groupby(...).sum()`, `.count()`
  and `.mean()`, and `sort_values(ascending=False)`.
- `App` models `app.py`.
- `StoreAnalysis` models `store_sales_analysis.py`.

`pd.to_datetime` and `pd.to_numeric` are library parsers. The model does not
contain them. They are parameters of type `string -> Option<...>`, and
`None` stands for text that does not convert. Every property is proved for
all such parsers.

## Model

| member | source | states |
|---|---|---|
| PyStr.Split | app.py:125 | `str.split(sep)`: at least one piece, no piece contains the separator, and joining the pieces with the separator gives back the input |
| PyStr.SplitAtSep | app.py:130 | splitting `a + sep + b` is splitting `a` followed by splitting `b` |
| PyStr.SplitJoin | app.py:125 | splitting a join of separator-free pieces returns exactly those pieces |
| PyStr.Strip | app.py:125 | `strip`: the result is the input less a prefix and a suffix drawn from the strip set; it is empty iff every character is in the set; otherwise it starts and ends outside the set |
| PyStr.StripPadded | store_sales_analysis.py:53 | stripping is unique: padding a core with strip-set characters strips back to that core |
| PyStr.StripIdempotent | app.py:125 | stripping a second time changes nothing |
| PyStr.PyInt | store_sales_analysis.py:47 | `int(text)`: a result is bounded by 10^(length of the text); the lemmas below state what it reads |
| PyStr.DecimalText | store_sales_analysis.py:47 | `str(n)`, the reference for `int`: one or more digits, without a leading zero |
| PyStr.DecimalValueOfText | store_sales_analysis.py:47 | the decimal value of the digits of `n` is `n` |
| PyStr.PyIntOfDigits | store_sales_analysis.py:47 | `int` of one or more decimal digits is their decimal value |
| PyStr.PyIntOfSigned | store_sales_analysis.py:47 | `int` of `+` or `-` followed by digits is the value of the digits, negated for `-` |
| PyStr.PyIntOfDecimalText | store_sales_analysis.py:47 | `int(str(n)) == n` for every natural `n` |
| PyStr.PyIntIgnoresWhitespace | store_sales_analysis.py:47 | whitespace before and after the text does not change what `int` reads, or whether it fails |
| PyStr.StripAbsorbs | app.py:125 | more strip-set characters around a string do not change what stripping leaves |
| PyStr.PyIntTwoDigits | store_sales_analysis.py:46-47 | `int` of a two-digit zero-padded number gives that number back |
| PyStr.Prefix | store_sales_analysis.py:38 | `s[0:n]` has length `min(n, len(s))` and agrees with `s` on those positions |
| PyStr.StartsWithIsPrefix | app.py:108 | `startswith(p)` holds exactly when the first `len(p)` characters are `p` |
| Records.ConcatRows | app.py:89 | `pd.concat`: the row count is the sum of the table lengths, and a row is in the result iff it is in one of the tables |
| Records.SplitFormattedAddress | app.py:130 | a `"street, city, ST zip"` address splits into the three comma pieces, and the third piece into `""`, state, ... |
| Aggregate.GroupSum | app.py:152 | `groupby(key)[col].sum()`: keys distinct and exactly the non-NaN keys of the rows; each key's value is the sum of its rows; all values add up to the sum over keyed rows |
| Aggregate.GroupCount | app.py:179 | `groupby(key)[col].count()`: keys distinct and exactly the row keys; each value is the number of rows with that key; the values add up to the number of keyed rows |
| Aggregate.EveryRowKeyedTotal | app.py:152 | when every row has a group key, the grouped values add up to the plain total |
| Aggregate.EveryRowKeyedCount | app.py:179 | when every row has a group key, every row is counted |
| Aggregate.GroupSumPartition | app.py:152 | when every row has a group key, the group sums add up to the sum over all rows, and each is its key's sum |
| Aggregate.GroupCountTotal | app.py:179 | when every row has a group key, the group counts add up to the number of rows, and each is its key's count |
| Aggregate.KeyOfSomeRow | app.py:179 | a key with a row is the key of a row at some position |
| Aggregate.GroupMean | app.py:209 | `groupby(key)[col].mean()`: keys distinct and exactly the row keys; each value is the sum of its rows divided by their (non-zero) count |
| Aggregate.Mean | app.py:209 | the mean times the count is the total |
| Aggregate.SortDescending | app.py:193 | `sort_values(ascending=False)`: values non-increasing, and the entries are a permutation of the input |
| Aggregate.InsertKeys | app.py:193 | inserting an entry into a sorted table adds its key, and keeps the keys distinct when the key is new |
| Aggregate.SortKeys | app.py:193 | sorting keeps the set of keys, and keeps distinct keys distinct |
| Aggregate.FindAt | app.py:152 | in a table with distinct keys, looking up an entry's key returns that entry's value |
| Aggregate.KeyAt | app.py:209 | every key of a table belongs to one of its entries |
| App.GetCity | app.py:123-127 | `get_city`: a NaN address or one with fewer than two comma pieces gives `""`; otherwise piece 1 with whitespace stripped, which holds no comma and starts and ends outside whitespace |
| App.GetState | app.py:128-132 | `get_state`: `""` on NaN or when piece 2 or its token 1 is missing; otherwise token 1 of piece 2 split on spaces, which holds no comma or space |
| App.GetCityOfAddress | app.py:123-127 | `get_city` recovers the city of every well-formed address |
| App.GetStateOfAddress | app.py:128-132 | `get_state` recovers the state code of every well-formed address |
| App.CityLabelOfAddress | app.py:134-135 | the City label of a well-formed address is `"city (ST)"` |
| App.MalformedAddressLabel | app.py:134-135 | a NaN address or one without a comma is labelled `" ()"` |
| App.SampleAddressLabel | app.py:123-132 | the first sample address gives city "New York" and state "NY" |
| App.ParseOrderDates | app.py:106-110 | the date block keeps a row iff its date is present, does not start with "Or" and parses, and replaces the text by the timestamp |
| App.ParseNumbers | app.py:113-115 | the numeric block keeps a row iff both quantity and price convert |
| App.AddDerivedColumns | app.py:117-137 | Month, Hour, Minute, Count, Sales and City are added to every row, City being `""` without an address column |
| App.CleanSales | app.py:103-137 | the cleaning section as the three blocks in sequence |
| App.DateStageAppend | app.py:106-110 | the date block works row by row: appending a row appends its outcome |
| App.KeptIndicesSpec | app.py:106-115 | the kept positions are in range, strictly increasing, and are exactly the rows whose date is present, not a header line and parses and whose quantity and price convert |
| App.CleanedSpec | app.py:103-137 | one cleaned row per kept raw row, in order; each carries its raw row's parsed values, its untouched product and address, Month/Hour/Minute of its timestamp, Count 1, Sales = quantity × price, and its City label |
| App.KeptRowsPassAgain | app.py:106-115 | every row at a kept position passes the keep rule |
| App.CleanedAppend | app.py:106-137 | the cleaning works row by row: one more raw row adds its cleaned row at the end when it passes the rule, and nothing otherwise |
| App.KeptRowsAt | app.py:106-115 | the kept rows are the rows at the kept positions, in order |
| App.KeptRowsAppend | app.py:106-115 | the keep filter of a concatenation is the concatenation of the filters |
| App.KeptRowsIdempotent | app.py:106-115 | filtering the kept rows again keeps them all |
| App.CleanedOfKeptRows | app.py:106-137 | cleaning is idempotent: cleaning only the rows the cleaning keeps gives the same cleaned table as cleaning all rows |
| App.MonthlySalesPartition | app.py:152 | monthly totals add up to total Sales; each is its month's Sales; every month listed lies in 1..12 |
| App.CitySalesPartition | app.py:165 | city totals add up to total Sales; each is its city's Sales |
| App.HourlyOrdersTotal | app.py:179 | hourly counts add up to the number of cleaned rows; each is its hour's row count |
| App.TopProductsRanking | app.py:193 | the ranking lists exactly the products that occur, each once, largest total quantity first, each with that product's total quantity |
| StoreAnalysis.CombineFiles | store_sales_analysis.py:14-16 | the merge loop yields the concatenation of the files in order |
| StoreAnalysis.FilterAppend | store_sales_analysis.py:38 | a row mask keeps order: filtering a concatenation filters each part |
| StoreAnalysis.FilterCount | store_sales_analysis.py:29 | a row mask keeps every accepted row as often as it occurred and no rejected row |
| StoreAnalysis.DropAllMissingSpec | store_sales_analysis.py:29 | `dropna(how="all")` removes exactly the rows whose every cell is NaN, keeping the others in order |
| StoreAnalysis.DropHeaderRowsSpec | store_sales_analysis.py:38 | the `str[0:2] != "Or"` mask removes exactly the rows whose date starts with "Or", keeping the others in order |
| StoreAnalysis.HeaderRowsOnly | store_sales_analysis.py:38 | a repeated "Order Date" header is dropped; a date in `MM/DD/YY HH:MM` form, or a NaN date, is kept |
| StoreAnalysis.GetCity | store_sales_analysis.py:52-53 | `get_city` needs a piece 1 and strips only spaces: the result is piece 1 trimmed of spaces, with no comma |
| StoreAnalysis.GetState | store_sales_analysis.py:55-56 | `get_state` needs piece 2 and its token 1, and returns token 1 of comma piece 2 split on spaces, which holds no comma or space |
| StoreAnalysis.CityLabelOfAddress | store_sales_analysis.py:58 | the City label of a well-formed address is `"city  (ST)"`, with two spaces |
| StoreAnalysis.CityKeepsOtherWhitespace | store_sales_analysis.py:52-53 | a city next to a tab or other non-space whitespace comes back with it |
| StoreAnalysis.Trunc | store_sales_analysis.py:62 | `astype("int")` truncates toward zero: same sign, less than one away, never larger in magnitude |
| StoreAnalysis.Convert | store_sales_analysis.py:41-62 | one row converted: date kept, quantity and price parsed (NaN price kept), Month = int(date[0:2]), City label, Sales = trunc(quantity) × price or NaN, Hour and Minute of the parsed date, Count 1 |
| StoreAnalysis.PrepareData | store_sales_analysis.py:29-62 | from the merged rows: the filtered rows, each converted with Month = int(date[0:2]), City label, Sales = trunc(quantity) × price (NaN when the price is NaN), Hour, Minute and Count = 1 |
| StoreAnalysis.MonthOfOrderDate | store_sales_analysis.py:46-47 | for a date in the data's format, Month is the calendar month |
| StoreAnalysis.MonthRange | store_sales_analysis.py:46-47 | Month is the value of at most two characters, so -10 < Month < 100 for any date |
| StoreAnalysis.SalesOfQuantity | store_sales_analysis.py:62 | with a non-negative price and a non-negative quantity, Sales never exceeds quantity × price and equals it for a whole quantity |
| StoreAnalysis.MonthlySalesPartition | store_sales_analysis.py:73 | monthly totals add up to total Sales, NaN sales counting as nothing; each is its month's Sales |
| StoreAnalysis.CitySalesPartition | store_sales_analysis.py:86 | city totals add up to total Sales; each is its city's Sales; every city listed is the City label of some row |
| StoreAnalysis.HourlyOrdersTotal | store_sales_analysis.py:105 | hourly counts add up to the number of rows; each is its hour's count, hours in 0..23 |
| StoreAnalysis.MeanPriceOverPricedRows | store_sales_analysis.py:127-130 | a product with a priced row is listed, and its mean is over its priced rows only (NaN prices skipped) |

## Left out

- Streamlit and matplotlib are not modelled: the page layout, the sidebar, the charts, `st.stop()` on an empty table, and `display`/`head` previews.
- File I/O is not modelled: `glob`, `read_csv`, and the round trip through `combined_file.csv`. A file is its sequence of rows, already split into cells, and re-reading the written CSV is taken to give the same rows back.
- The sample data sets embedded in `app.py` are not modelled; only the first sample address appears, in `App.SampleAddressLabel`.
- `pd.to_datetime` and `pd.to_numeric` are parameters, not definitions. pandas infers one date format for a whole column from its first element; the model parses each cell independently.
- Numbers are exact reals, not IEEE doubles, so rounding in sums and means is not modelled.
- The order of group keys is not modelled: pandas sorts them, the model lists them in first-appearance order. Every lookup and total is stated per key, so it does not depend on this order.
- The order of equal values after `sort_values` (a non-stable quicksort) is not fixed by the model.
- StoreAnalysis.PrepareData: when a conversion would raise (a NaN or non-numeric quantity, an unparsable price or date, a date whose first two characters are not an integer, a short address), the script stops with an exception. The model instead requires rows for which none of these happens.
- A missing Order Date, Product, Quantity Ordered or Price Each column (a `KeyError`) is not modelled. Only the optional "Purchase Address" column of `app.py` is.
- PyStr.PyInt: underscores between digits and non-ASCII digits, which Python's `int()` accepts, are rejected. numpy's `astype("int32")` on text is modelled as `int()`, which suffices for two-character text.
- StoreAnalysis.MeanPriceOverPricedRows: a product whose every price is NaN is listed by pandas with a NaN mean; the model leaves it out of the mean-price table.
- Seconds and the century of the year are not modelled in `DateTime`. Only the fields the scripts read (month, hour, minute) matter.
