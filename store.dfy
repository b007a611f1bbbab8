/** The notebook-style analysis script: it concatenates every CSV file of the
    working directory, drops empty and repeated-header rows, converts the
    columns in place (raising on text it cannot convert), adds Month, City,
    Sales, Hour, Minute and Count, and reduces the result per month, city,
    hour and product. Where a pandas conversion would raise, the model asks
    for the rows that make it succeed. */
module StoreAnalysis {
  import opened Wrappers
  import opened PyStr
  import opened Records
  import opened Aggregate

  // =====================================================================
  // Reading the files

  /** The loop over the CSV files: each table is appended to the combined
      one, in the order the files are listed. */
  method CombineFiles(files: seq<seq<RawRow>>) returns (combined: seq<RawRow>)
    ensures combined == Concat(files)
  {
    combined := [];
    for i := 0 to |files|
      invariant combined == Concat(files[..i])
    {
      assert files[..i + 1][..i] == files[..i];
      combined := combined + files[i];
    }
    assert files[..|files|] == files;
  }

  // =====================================================================
  // Row filters

  /** `rows[mask]`: the rows for which `keep` holds, in their order. */
  function Filter(rows: seq<RawRow>, keep: RawRow -> bool): seq<RawRow>
  {
    if |rows| == 0 then []
    else
      var last := rows[|rows| - 1];
      Filter(rows[..|rows| - 1], keep) + (if keep(last) then [last] else [])
  }

  /** Filtering a concatenation filters each part: the filter keeps the
      order of the rows it keeps. */
  lemma {:induction false} FilterAppend(a: seq<RawRow>, b: seq<RawRow>, keep: RawRow -> bool)
    ensures Filter(a + b, keep) == Filter(a, keep) + Filter(b, keep)
  {
    if |b| == 0 {
      assert a + b == a;
    } else {
      assert (a + b)[..|a + b| - 1] == a + b[..|b| - 1];
      FilterAppend(a, b[..|b| - 1], keep);
    }
  }

  /** A kept row occurs as often as before, a dropped one not at all. */
  lemma {:induction false} FilterCount(rows: seq<RawRow>, keep: RawRow -> bool, x: RawRow)
    ensures multiset(Filter(rows, keep))[x] == if keep(x) then multiset(rows)[x] else 0
  {
    if |rows| > 0 {
      FilterCount(rows[..|rows| - 1], keep, x);
      assert rows == rows[..|rows| - 1] + [rows[|rows| - 1]];
    }
  }

  /** Every cell of the row is NaN. */
  predicate AllMissing(r: RawRow)
  {
    r.orderDate.None? && r.product.None? && r.quantity.None? && r.price.None? && r.address.None?
  }

  predicate HasSomeCell(r: RawRow) { !AllMissing(r) }

  /** `dropna(how="all")`. */
  function DropAllMissing(rows: seq<RawRow>): seq<RawRow>
  {
    Filter(rows, HasSomeCell)
  }

  /** `dropna(how="all")` removes exactly the rows whose every cell is
      missing; a row with at least one cell present stays, as often as it
      occurred, and the kept rows keep their order. */
  lemma DropAllMissingSpec(rows: seq<RawRow>, more: seq<RawRow>)
    ensures forall x ::
      multiset(DropAllMissing(rows))[x] == if AllMissing(x) then 0 else multiset(rows)[x]
    ensures DropAllMissing(rows + more) == DropAllMissing(rows) + DropAllMissing(more)
  {
    forall x ensures multiset(DropAllMissing(rows))[x] == if AllMissing(x) then 0 else multiset(rows)[x] {
      FilterCount(rows, HasSomeCell, x);
    }
    FilterAppend(rows, more, HasSomeCell);
  }

  /** The first two characters of the Order Date are `"Or"`: a copy of the
      header line inside the data. A NaN date compares unequal to `"Or"`,
      so its row is not a header row. */
  predicate HeaderLike(r: RawRow)
  {
    r.orderDate.Some? && Prefix(r.orderDate.value, 2) == "Or"
  }

  predicate NotHeaderLike(r: RawRow) { !HeaderLike(r) }

  /** `df[df["Order Date"].str[0:2] != "Or"]`. */
  function DropHeaderRows(rows: seq<RawRow>): seq<RawRow>
  {
    Filter(rows, NotHeaderLike)
  }

  /** The header filter removes exactly the rows whose date starts with
      `"Or"` and keeps the others in order. */
  lemma DropHeaderRowsSpec(rows: seq<RawRow>, more: seq<RawRow>)
    ensures forall x ::
      multiset(DropHeaderRows(rows))[x] == if HeaderLike(x) then 0 else multiset(rows)[x]
    ensures DropHeaderRows(rows + more) == DropHeaderRows(rows) + DropHeaderRows(more)
  {
    forall x ensures multiset(DropHeaderRows(rows))[x] == if HeaderLike(x) then 0 else multiset(rows)[x] {
      FilterCount(rows, NotHeaderLike, x);
    }
    FilterAppend(rows, more, NotHeaderLike);
  }

  /** A repeated header line is dropped; a row dated in the data's
      `"MM/DD/YY HH:MM"` format, or with no date, is kept. */
  lemma HeaderRowsOnly(r: RawRow, at: DateTime)
    ensures r.orderDate == Some("Order Date") ==> HeaderLike(r)
    ensures r.orderDate == Some(FormatOrderDate(at)) ==> !HeaderLike(r)
    ensures r.orderDate.None? ==> !HeaderLike(r)
  {
    if r.orderDate == Some("Order Date") {
      assert Prefix("Order Date", 2) == "Order Date"[..2] == "Or";
    }
    if r.orderDate == Some(FormatOrderDate(at)) {
      assert Prefix(FormatOrderDate(at), 2)[0] == TwoDigits(at.month)[0];
    }
  }

  /** The rows the conversions run on. */
  function Ready(combined: seq<RawRow>): seq<RawRow>
  {
    DropHeaderRows(DropAllMissing(combined))
  }

  // =====================================================================
  // The address columns (no fallback: a malformed address raises)

  /** `get_city`: comma piece 1 with spaces (only spaces) stripped. */
  function GetCity(address: string): (city: string)
    requires |Split(address, ',')| >= 2
    ensures Trims(Split(address, ',')[1], city, {' '})
    ensures ',' !in city
    ensures city != [] ==> city[0] != ' ' && city[|city| - 1] != ' '
  {
    var piece := Split(address, ',')[1];
    var city := Strip(piece, {' '});
    assert forall c :: c in city ==> c in piece;
    city
  }

  /** `get_state`: token 1 of comma piece 2 split on single spaces. */
  function GetState(address: string): (state: string)
    requires HasStateToken(address)
    ensures state == Split(Split(address, ',')[2], ' ')[1]
    ensures ',' !in state && ' ' !in state
  {
    var pieces := Split(address, ',');
    var tokens := Split(pieces[2], ' ');
    assert ',' !in tokens[1] by {
      if ',' in tokens[1] { PieceWithin(tokens, ' ', 1, ','); }
    }
    tokens[1]
  }

  /** The City column: `"<city>  (<state>)"`, with two spaces. */
  function CityLabel(address: string): string
    requires HasStateToken(address)
  {
    GetCity(address) + "  (" + GetState(address) + ")"
  }

  /** The City label of a well-formed address is `"city  (ST)"`. */
  lemma {:induction false} CityLabelOfAddress(street: string, city: string, state: string, zip: string)
    requires WellFormedParts(street, city, state, zip)
    ensures HasStateToken(FormatAddress(street, city, state, zip))
    ensures CityLabel(FormatAddress(street, city, state, zip)) == city + "  (" + state + ")"
  {
    var a := FormatAddress(street, city, state, zip);
    SplitFormattedAddress(street, city, state, zip);
    StripPadded(" ", city, [], {' '});
    assert " " + city + [] == " " + city;
    var tokens := Split(" " + state + " " + zip, ' ');
    assert tokens[1] == tokens[..2][1];
  }

  /** Only spaces are stripped: a city written after `", "` comes back
      whole, even when it starts or ends with a tab or other non-space
      whitespace. */
  lemma {:induction false} CityKeepsOtherWhitespace(street: string, city: string, rest: string)
    requires ',' !in street && ',' !in city
    requires city != [] ==> city[0] != ' ' && city[|city| - 1] != ' '
    ensures GetCity(street + ", " + city + "," + rest) == city
  {
    var tail := " " + city + "," + rest;
    assert street + ", " + city + "," + rest == street + [','] + tail;
    SplitAtSep(street, tail, ',');
    assert tail == " " + city + [','] + rest;
    SplitAtSep(" " + city, rest, ',');
    assert ',' !in " " + city;
    SplitWithoutSep(street, ',');
    SplitWithoutSep(" " + city, ',');
    assert Split(street + ", " + city + "," + rest, ',')[1] == " " + city;
    StripPadded(" ", city, [], {' '});
    assert " " + city + [] == " " + city;
  }

  // =====================================================================
  // Column conversions and derived columns

  /** `astype("int")` on a float: truncation toward zero. */
  function Trunc(x: real): (n: int)
    ensures 0.0 <= x ==> 0 <= n && n as real <= x < n as real + 1.0
    ensures x < 0.0 ==> n <= 0 && n as real - 1.0 < x <= n as real
  {
    if x >= 0.0 then x.Floor else -((-x).Floor)
  }

  /** Everything the conversions need of one row for none of them to raise:
      a date whose first two characters are an integer (Month) and that the
      date parser accepts (Hour, Minute), a quantity that parses (it is cast
      to int, which fails on NaN), a price that is missing or parses, and an
      address with a comma piece 2 holding a token 1. */
  predicate Convertible(r: RawRow, parseDate: DateParser, parseNumber: NumberParser)
  {
    && r.orderDate.Some?
    && PyInt(Prefix(r.orderDate.value, 2)).Some?
    && parseDate(r.orderDate.value).Some?
    && r.quantity.Some? && parseNumber(r.quantity.value).Some?
    && (r.price.Some? ==> parseNumber(r.price.value).Some?)
    && r.address.Some? && HasStateToken(r.address.value)
  }

  /** A row of the converted table. A missing price stays NaN, and so does
      its Sales value. */
  datatype Sale = Sale(orderDate: string, product: Option<string>, quantity: real,
                       price: Option<real>, address: string, month: int, city: string,
                       sales: Option<real>, hour: HourOfDay, minute: MinuteOfHour, count: int)

  /** What the conversions make of row `r`: the date kept as text, Month the
      integer value of its first two characters, Hour and Minute from the
      parsed date, Quantity and Price as numbers, Sales the truncated
      quantity times the price, City the label of the address, Count 1. */
  predicate Derived(r: RawRow, s: Sale, parseDate: DateParser, parseNumber: NumberParser)
  {
    && Convertible(r, parseDate, parseNumber)
    && Some(s.orderDate) == r.orderDate
    && s.product == r.product
    && Some(s.address) == r.address
    && Some(s.quantity) == ToNumeric(r.quantity, parseNumber)
    && s.price == ToNumeric(r.price, parseNumber)
    && Some(s.month) == PyInt(Prefix(s.orderDate, 2))
    && s.city == CityLabel(s.address)
    && (s.sales.Some? <==> s.price.Some?)
    && (s.sales.Some? ==> s.sales.value == (Trunc(s.quantity) as real) * s.price.value)
    && s.hour == parseDate(s.orderDate).value.hour
    && s.minute == parseDate(s.orderDate).value.minute
    && s.count == 1
  }

  /** The column conversions and the new columns (Month, City, Sales, Hour,
      Minute, Count) on one row. */
  function Convert(r: RawRow, parseDate: DateParser, parseNumber: NumberParser): (s: Sale)
    requires Convertible(r, parseDate, parseNumber)
    ensures Derived(r, s, parseDate, parseNumber)
  {
    var date := r.orderDate.value;
    var address := r.address.value;
    var at := parseDate(date).value;
    var quantity := parseNumber(r.quantity.value).value;
    var price := ToNumeric(r.price, parseNumber);
    var sales := if price.Some? then Some((Trunc(quantity) as real) * price.value) else None;
    var city := CityLabel(address);
    Sale(date, r.product, quantity, price, address, PyInt(Prefix(date, 2)).value, city,
         sales, at.hour, at.minute, 1)
  }

  /** The script from the combined rows to the table the reductions use:
      the two filters, then the column conversions row by row. */
  method PrepareData(combined: seq<RawRow>, parseDate: DateParser, parseNumber: NumberParser)
    returns (allData: seq<Sale>)
    requires forall r :: r in Ready(combined) ==> Convertible(r, parseDate, parseNumber)
    ensures |allData| == |Ready(combined)|
    ensures forall i :: 0 <= i < |allData| ==> Derived(Ready(combined)[i], allData[i], parseDate, parseNumber)
  {
    var rows := DropAllMissing(combined);
    rows := DropHeaderRows(rows);
    allData := [];
    for i := 0 to |rows|
      invariant |allData| == i
      invariant forall j :: 0 <= j < i ==> Derived(rows[j], allData[j], parseDate, parseNumber)
    {
      assert rows[i] in Ready(combined);
      var s := Convert(rows[i], parseDate, parseNumber);
      allData := allData + [s];
    }
  }

  /** Month is the calendar month for a date in the data's format. */
  lemma MonthOfOrderDate(at: DateTime)
    ensures PyInt(Prefix(FormatOrderDate(at), 2)) == Some(at.month as int)
  {
    assert Prefix(FormatOrderDate(at), 2) == TwoDigits(at.month);
    PyIntTwoDigits(at.month);
  }

  /** Month is the integer value of two characters, whatever the date. */
  lemma MonthRange(r: RawRow, s: Sale, parseDate: DateParser, parseNumber: NumberParser)
    requires Derived(r, s, parseDate, parseNumber)
    ensures -10 < s.month < 100
  {
    assert Pow10(2) == 100;
    assert Pow10(1) == 10;
    var p := Prefix(s.orderDate, 2);
    if |p| == 1 { assert Pow10(|p|) == 10; } else if |p| == 2 { assert Pow10(|p|) == 100; }
  }

  /** Sales is the truncated quantity times the price: an order of a whole
      quantity is charged exactly, a fractional quantity is charged less. */
  lemma SalesOfQuantity(r: RawRow, s: Sale, parseDate: DateParser, parseNumber: NumberParser)
    requires Derived(r, s, parseDate, parseNumber)
    requires s.price.Some? && s.price.value >= 0.0 && s.quantity >= 0.0
    ensures s.sales.Some?
    ensures s.sales.value <= s.quantity * s.price.value
    ensures s.quantity == s.quantity.Floor as real ==> s.sales.value == s.quantity * s.price.value
  {
    var n := Trunc(s.quantity) as real;
    assert n <= s.quantity;
    assert n * s.price.value <= s.quantity * s.price.value;
  }

  // =====================================================================
  // Reductions

  function MonthKey(s: Sale): Option<int> { Some(s.month) }
  function HourKey(s: Sale): Option<int> { Some(s.hour as int) }
  function CityKey(s: Sale): Option<string> { Some(s.city) }
  /** A missing product name is a NaN group key, which `groupby` drops. */
  function ProductKey(s: Sale): Option<string> { s.product }
  /** For the mean price a row with a NaN price is skipped as well. */
  function PricedProductKey(s: Sale): Option<string> { if s.price.Some? then s.product else None }
  /** `sum` skips NaN: a missing Sales value adds nothing. */
  function SalesOf(s: Sale): real { s.sales.GetOr(0.0) }
  function QuantityOf(s: Sale): real { s.quantity }
  function PriceOf(s: Sale): real { s.price.GetOr(0.0) }

  /** `groupby(["Month"]).sum()["Sales"]`. */
  function MonthlySales(df: seq<Sale>): seq<(int, real)>
  {
    GroupSum(df, MonthKey, SalesOf)
  }

  /** `groupby(["City"]).sum()["Sales"]`. */
  function CitySales(df: seq<Sale>): seq<(string, real)>
  {
    GroupSum(df, CityKey, SalesOf)
  }

  /** `groupby(["Hour"]).count()["Count"]`. */
  function HourlyOrders(df: seq<Sale>): seq<(int, nat)>
  {
    GroupCount(df, HourKey)
  }

  /** `groupby("Product").sum()["Quantity Ordered"]`. */
  function ProductQuantity(df: seq<Sale>): seq<(string, real)>
  {
    GroupSum(df, ProductKey, QuantityOf)
  }

  /** `groupby("Product")["Price Each"].mean()`, NaN prices skipped. */
  function ProductMeanPrice(df: seq<Sale>): seq<(string, real)>
  {
    GroupMean(df, PricedProductKey, PriceOf)
  }

  /** The monthly totals partition the total Sales (NaN sales counting as
      nothing); each entry is its month's Sales. */
  lemma {:induction false} MonthlySalesPartition(df: seq<Sale>)
    ensures SumOf(MonthlySales(df)) == Total(df, SalesOf)
    ensures forall m :: Find(MonthlySales(df), m).Some? ==>
      Find(MonthlySales(df), m).value == SumWhere(df, MonthKey, SalesOf, m)
  {
    GroupSumPartition(df, MonthKey, SalesOf);
  }

  /** The city totals partition the total Sales, and every city listed is
      the City label of one of the rows. */
  lemma {:induction false} CitySalesPartition(df: seq<Sale>)
    ensures SumOf(CitySales(df)) == Total(df, SalesOf)
    ensures forall c :: Find(CitySales(df), c).Some? ==>
      Find(CitySales(df), c).value == SumWhere(df, CityKey, SalesOf, c)
    ensures forall c :: Find(CitySales(df), c).Some? ==> exists i :: 0 <= i < |df| && df[i].city == c
  {
    GroupSumPartition(df, CityKey, SalesOf);
    forall c | Find(CitySales(df), c).Some? ensures exists i :: 0 <= i < |df| && df[i].city == c {
      var i := KeyOfSomeRow(df, CityKey, c);
    }
  }

  /** The hourly order counts add up to the number of rows. */
  lemma {:induction false} HourlyOrdersTotal(df: seq<Sale>)
    ensures CountOf(HourlyOrders(df)) == |df|
    ensures forall h :: Find(HourlyOrders(df), h).Some? ==>
      0 <= h < 24 && Find(HourlyOrders(df), h).value == CountWhere(df, HourKey, h)
  {
    GroupCountTotal(df, HourKey);
    forall h | Find(HourlyOrders(df), h).Some? ensures 0 <= h < 24 {
      var i := KeyOfSomeRow(df, HourKey, h);
    }
  }

  /** The mean price of a product is over its rows that have a price: a
      product is listed when one of its rows has a price, with the total of
      its priced rows divided by their number. */
  lemma MeanPriceOverPricedRows(df: seq<Sale>, product: string)
    requires exists s :: s in df && s.product == Some(product) && s.price.Some?
    ensures CountWhere(df, PricedProductKey, product) > 0
    ensures Find(ProductMeanPrice(df), product) ==
      Some(Mean(SumWhere(df, PricedProductKey, PriceOf, product), CountWhere(df, PricedProductKey, product)))
  {
    var g := ProductMeanPrice(df);
    var s :| s in df && s.product == Some(product) && s.price.Some?;
    PricedRowCounted(df, s);
    assert product in RowKeys(df, PricedProductKey);
    var i := KeyAt(g, product);
    FindAt(g, i);
  }

  lemma {:induction false} PricedRowCounted(df: seq<Sale>, s: Sale)
    requires s in df && s.product.Some? && s.price.Some?
    ensures CountWhere(df, PricedProductKey, s.product.value) > 0
  {
    if s != df[|df| - 1] {
      assert s in df[..|df| - 1] by { assert df == df[..|df| - 1] + [df[|df| - 1]]; }
      PricedRowCounted(df[..|df| - 1], s);
    }
  }
}
