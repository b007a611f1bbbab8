/** The cleaning, derivation and aggregation steps of the dashboard script
    `app.py`: the address splitters with their `try/except` fallback, the
    cleaning block that drops malformed rows, the derived columns, and the
    group-by reductions behind the five charts. */
module App {
  import opened Wrappers
  import opened PyStr
  import opened Records
  import opened Aggregate

  // =====================================================================
  // Address splitting (get_city, get_state and the City label)

  /** `get_city`: the second comma-separated piece of the address with its
      surrounding whitespace removed. Any exception (a NaN cell has no
      `split`, a short address has no piece 1) yields `""`. */
  function GetCity(address: Option<string>): (city: string)
    ensures address.None? ==> city == ""
    ensures address.Some? && |Split(address.value, ',')| < 2 ==> city == ""
    ensures address.Some? && |Split(address.value, ',')| >= 2 ==>
      Trims(Split(address.value, ',')[1], city, Whitespace)
    ensures ',' !in city
    ensures city != [] ==> city[0] !in Whitespace && city[|city| - 1] !in Whitespace
  {
    match address
    case None => ""
    case Some(a) =>
      var pieces := Split(a, ',');
      if |pieces| < 2 then "" else Strip(pieces[1], Whitespace)
  }

  /** `get_state`: token 1 of the third comma-separated piece split on single
      spaces (token 0 is the empty string before the leading space). Any
      exception yields `""`. */
  function GetState(address: Option<string>): (state: string)
    ensures address.None? ==> state == ""
    ensures address.Some? && !HasStateToken(address.value) ==> state == ""
    ensures address.Some? && HasStateToken(address.value) ==>
      state == Split(Split(address.value, ',')[2], ' ')[1]
    ensures ',' !in state && ' ' !in state
  {
    match address
    case None => ""
    case Some(a) =>
      var pieces := Split(a, ',');
      if |pieces| < 3 then ""
      else
        var tokens := Split(pieces[2], ' ');
        if |tokens| < 2 then ""
        else
          assert ',' !in tokens[1] by {
            if ',' in tokens[1] { PieceWithin(tokens, ' ', 1, ','); }
          }
          tokens[1]
  }

  /** The `City` cell: `f"{get_city(x)} ({get_state(x)})"`. */
  function CityLabel(address: Option<string>): string
  {
    GetCity(address) + " (" + GetState(address) + ")"
  }

  /** `get_city` recovers the city of a well-formed address. */
  lemma {:induction false} GetCityOfAddress(street: string, city: string, state: string, zip: string)
    requires WellFormedParts(street, city, state, zip)
    ensures GetCity(Some(FormatAddress(street, city, state, zip))) == city
  {
    SplitFormattedAddress(street, city, state, zip);
    StripPadded(" ", city, [], Whitespace);
    assert " " + city + [] == " " + city;
  }

  /** `get_state` recovers the state code of a well-formed address. */
  lemma {:induction false} GetStateOfAddress(street: string, city: string, state: string, zip: string)
    requires WellFormedParts(street, city, state, zip)
    ensures GetState(Some(FormatAddress(street, city, state, zip))) == state
  {
    SplitFormattedAddress(street, city, state, zip);
    var tokens := Split(" " + state + " " + zip, ' ');
    assert tokens[1] == tokens[..2][1];
  }

  /** The City label of a well-formed address is `"city (ST)"`. */
  lemma CityLabelOfAddress(street: string, city: string, state: string, zip: string)
    requires WellFormedParts(street, city, state, zip)
    ensures CityLabel(Some(FormatAddress(street, city, state, zip))) == city + " (" + state + ")"
  {
    GetCityOfAddress(street, city, state, zip);
    GetStateOfAddress(street, city, state, zip);
  }

  /** A missing address, or one without a comma, gets the label `" ()"`. */
  lemma MalformedAddressLabel(address: Option<string>)
    requires address.None? || |Split(address.value, ',')| < 2
    ensures CityLabel(address) == " ()"
  {
  }

  /** The first line of the bundled sample data. */
  lemma SampleAddressLabel()
    ensures GetCity(Some("123 Main St, New York, NY 10001")) == "New York"
    ensures GetState(Some("123 Main St, New York, NY 10001")) == "NY"
  {
    SampleAddressParts();
    GetCityOfAddress("123 Main St", "New York", "NY", "10001");
    GetStateOfAddress("123 Main St", "New York", "NY", "10001");
  }

  lemma SampleAddressParts()
    ensures FormatAddress("123 Main St", "New York", "NY", "10001") == "123 Main St, New York, NY 10001"
    ensures WellFormedParts("123 Main St", "New York", "NY", "10001")
  {
    assert ',' !in "123 Main St" && ',' !in "New York" && ',' !in "NY" && ',' !in "10001";
    assert ' ' !in "NY";
    assert "New York"[0] == 'N' && "New York"[7] == 'k';
  }

  // =====================================================================
  // Cleaning and derived columns

  /** The uploaded table; `hasAddressColumn` says whether it has a
      "Purchase Address" column at all. */
  datatype RawTable = RawTable(hasAddressColumn: bool, rows: seq<RawRow>)

  /** A row once "Order Date" holds a parsed timestamp. */
  datatype DatedRow = DatedRow(orderDate: DateTime, product: Option<string>,
                               quantity: Option<string>, price: Option<string>,
                               address: Option<string>)

  /** A row once "Quantity Ordered" and "Price Each" are numbers. */
  datatype ParsedRow = ParsedRow(orderDate: DateTime, product: Option<string>,
                                 quantity: real, price: real, address: Option<string>)

  /** A row of the cleaned table, with the derived columns Month, Hour,
      Minute, Count, Sales and City. */
  datatype Sale = Sale(orderDate: DateTime, product: Option<string>, quantity: real,
                       price: real, address: Option<string>, month: MonthOfYear,
                       hour: HourOfDay, minute: MinuteOfHour, count: int,
                       sales: real, city: string)

  /** The date block on one row: a missing date is dropped, so is a repeated
      header line (text starting with "Or"), so is a date the parser rejects. */
  function DateStep(r: RawRow, parseDate: DateParser): Option<DatedRow>
  {
    match r.orderDate
    case None => None
    case Some(text) =>
      if StartsWith(text, "Or") then None
      else match parseDate(text)
        case None => None
        case Some(at) => Some(DatedRow(at, r.product, r.quantity, r.price, r.address))
  }

  /** The numeric block on one row: dropped unless both quantity and price
      convert. */
  function NumberStep(d: DatedRow, parseNumber: NumberParser): Option<ParsedRow>
  {
    match (ToNumeric(d.quantity, parseNumber), ToNumeric(d.price, parseNumber))
    case (Some(q), Some(p)) => Some(ParsedRow(d.orderDate, d.product, q, p, d.address))
    case _ => None
  }

  /** The derived columns of one row. */
  function DeriveStep(p: ParsedRow, hasAddressColumn: bool): Sale
  {
    Sale(p.orderDate, p.product, p.quantity, p.price, p.address,
         p.orderDate.month, p.orderDate.hour, p.orderDate.minute,
         1, p.quantity * p.price,
         if hasAddressColumn then CityLabel(p.address) else "")
  }

  function DateStage(rows: seq<RawRow>, parseDate: DateParser): seq<DatedRow>
  {
    if |rows| == 0 then []
    else DateStage(rows[..|rows| - 1], parseDate) + DateStep(rows[|rows| - 1], parseDate).ToSeq()
  }

  function NumberStage(rows: seq<DatedRow>, parseNumber: NumberParser): seq<ParsedRow>
  {
    if |rows| == 0 then []
    else NumberStage(rows[..|rows| - 1], parseNumber) + NumberStep(rows[|rows| - 1], parseNumber).ToSeq()
  }

  function DeriveStage(rows: seq<ParsedRow>, hasAddressColumn: bool): seq<Sale>
  {
    if |rows| == 0 then []
    else DeriveStage(rows[..|rows| - 1], hasAddressColumn) + [DeriveStep(rows[|rows| - 1], hasAddressColumn)]
  }

  /** The table the cleaning section leaves behind. */
  function Cleaned(table: RawTable, parseDate: DateParser, parseNumber: NumberParser): seq<Sale>
  {
    DeriveStage(NumberStage(DateStage(table.rows, parseDate), parseNumber), table.hasAddressColumn)
  }

  /** The date block: keep rows whose date is present, is not a repeated
      header line and parses; replace the date text by its parsed value. */
  method ParseOrderDates(rows: seq<RawRow>, parseDate: DateParser) returns (dated: seq<DatedRow>)
    ensures dated == DateStage(rows, parseDate)
  {
    dated := [];
    for i := 0 to |rows|
      invariant dated == DateStage(rows[..i], parseDate)
    {
      var r := rows[i];
      assert rows[..i + 1] == rows[..i] + [r];
      DateStageAppend(rows[..i], r, parseDate);
      if r.orderDate.Some? && !StartsWith(r.orderDate.value, "Or") {
        var at := parseDate(r.orderDate.value);
        if at.Some? {
          dated := dated + [DatedRow(at.value, r.product, r.quantity, r.price, r.address)];
        }
      }
    }
    assert rows[..|rows|] == rows;
  }

  /** The numeric block: convert quantity and price, dropping rows where either
      is missing or does not convert. */
  method ParseNumbers(dated: seq<DatedRow>, parseNumber: NumberParser) returns (parsed: seq<ParsedRow>)
    ensures parsed == NumberStage(dated, parseNumber)
  {
    parsed := [];
    for i := 0 to |dated|
      invariant parsed == NumberStage(dated[..i], parseNumber)
    {
      var d := dated[i];
      assert dated[..i + 1] == dated[..i] + [d];
      NumberStageAppend(dated[..i], [d], parseNumber);
      var quantity := ToNumeric(d.quantity, parseNumber);
      var price := ToNumeric(d.price, parseNumber);
      if quantity.Some? && price.Some? {
        parsed := parsed + [ParsedRow(d.orderDate, d.product, quantity.value, price.value, d.address)];
      }
    }
    assert dated[..|dated|] == dated;
  }

  /** The derived-columns block: assign the Month, Hour, Minute, Count, Sales and City
      columns. */
  method AddDerivedColumns(parsed: seq<ParsedRow>, hasAddressColumn: bool) returns (df: seq<Sale>)
    ensures df == DeriveStage(parsed, hasAddressColumn)
  {
    df := [];
    for i := 0 to |parsed|
      invariant df == DeriveStage(parsed[..i], hasAddressColumn)
    {
      var p := parsed[i];
      assert parsed[..i + 1] == parsed[..i] + [p];
      DeriveStageAppend(parsed[..i], [p], hasAddressColumn);
      var city := if hasAddressColumn then CityLabel(p.address) else "";
      var sale := Sale(p.orderDate, p.product, p.quantity, p.price, p.address,
                       p.orderDate.month, p.orderDate.hour, p.orderDate.minute,
                       1, p.quantity * p.price, city);
      assert sale == DeriveStep(p, hasAddressColumn);
      df := df + [sale];
    }
    assert parsed[..|parsed|] == parsed;
  }

  /** The cleaning section, block by block: the date filters, the numeric
      conversions with their `dropna`, then the derived columns. */
  method CleanSales(table: RawTable, parseDate: DateParser, parseNumber: NumberParser)
    returns (df: seq<Sale>)
    ensures df == Cleaned(table, parseDate, parseNumber)
  {
    var dated := ParseOrderDates(table.rows, parseDate);
    var parsed := ParseNumbers(dated, parseNumber);
    df := AddDerivedColumns(parsed, table.hasAddressColumn);
  }

  /** The rule the cleaning applies to a row, stated on its raw cells: the
      date is present, is not a repeated header, and parses; quantity and
      price both convert. */
  predicate Keep(r: RawRow, parseDate: DateParser, parseNumber: NumberParser)
  {
    && r.orderDate.Some?
    && !StartsWith(r.orderDate.value, "Or")
    && parseDate(r.orderDate.value).Some?
    && ToNumeric(r.quantity, parseNumber).Some?
    && ToNumeric(r.price, parseNumber).Some?
  }

  /** What a cleaned row holds, given the raw row it came from: the parsed
      date and numbers, the untouched product and address, and the derived
      columns. */
  predicate Derived(r: RawRow, s: Sale, parseDate: DateParser, parseNumber: NumberParser,
                    hasAddressColumn: bool)
  {
    && r.orderDate.Some? && parseDate(r.orderDate.value) == Some(s.orderDate)
    && ToNumeric(r.quantity, parseNumber) == Some(s.quantity)
    && ToNumeric(r.price, parseNumber) == Some(s.price)
    && s.product == r.product && s.address == r.address
    && s.month == s.orderDate.month && s.hour == s.orderDate.hour && s.minute == s.orderDate.minute
    && s.count == 1
    && s.sales == s.quantity * s.price
    && s.city == (if hasAddressColumn then CityLabel(r.address) else "")
  }

  /** Positions of the rows that `Keep` accepts, in increasing order. */
  function KeptIndices(rows: seq<RawRow>, parseDate: DateParser, parseNumber: NumberParser): seq<nat>
  {
    if |rows| == 0 then []
    else
      KeptIndices(rows[..|rows| - 1], parseDate, parseNumber) +
      (if Keep(rows[|rows| - 1], parseDate, parseNumber) then [|rows| - 1] else [])
  }

  lemma DateStageAppend(rows: seq<RawRow>, r: RawRow, parseDate: DateParser)
    ensures DateStage(rows + [r], parseDate) == DateStage(rows, parseDate) + DateStep(r, parseDate).ToSeq()
  {
    assert (rows + [r])[..|rows|] == rows;
  }

  lemma NumberStageAppend(rows: seq<DatedRow>, extra: seq<DatedRow>, parseNumber: NumberParser)
    requires |extra| <= 1
    ensures NumberStage(rows + extra, parseNumber) ==
      NumberStage(rows, parseNumber) + (if extra == [] then [] else NumberStep(extra[0], parseNumber).ToSeq())
  {
    if extra == [] { assert rows + extra == rows; } else { assert (rows + extra)[..|rows|] == rows; }
  }

  lemma DeriveStageAppend(rows: seq<ParsedRow>, extra: seq<ParsedRow>, hasAddressColumn: bool)
    requires |extra| <= 1
    ensures DeriveStage(rows + extra, hasAddressColumn) ==
      DeriveStage(rows, hasAddressColumn) + (if extra == [] then [] else [DeriveStep(extra[0], hasAddressColumn)])
  {
    if extra == [] { assert rows + extra == rows; } else { assert (rows + extra)[..|rows|] == rows; }
  }

  /** `Keep` is exactly the rule the two filtering blocks apply. */
  lemma KeepIsStepRule(r: RawRow, parseDate: DateParser, parseNumber: NumberParser)
    ensures Keep(r, parseDate, parseNumber) <==>
      DateStep(r, parseDate).Some? && NumberStep(DateStep(r, parseDate).value, parseNumber).Some?
  {
  }

  /** The cleaned row that a row passing the rule turns into. */
  function CleanRow(r: RawRow, parseDate: DateParser, parseNumber: NumberParser, hasAddressColumn: bool): (s: Sale)
    requires Keep(r, parseDate, parseNumber)
    ensures Derived(r, s, parseDate, parseNumber, hasAddressColumn)
  {
    KeepIsStepRule(r, parseDate, parseNumber);
    DeriveStep(NumberStep(DateStep(r, parseDate).value, parseNumber).value, hasAddressColumn)
  }

  /** The three blocks work row by row: appending a raw row appends its
      cleaned row when it passes the rule, and nothing otherwise. */
  lemma CleanedAppend(rows: seq<RawRow>, r: RawRow, parseDate: DateParser,
                      parseNumber: NumberParser, hasAddressColumn: bool)
    ensures Cleaned(RawTable(hasAddressColumn, rows + [r]), parseDate, parseNumber) ==
            Cleaned(RawTable(hasAddressColumn, rows), parseDate, parseNumber) +
            (if Keep(r, parseDate, parseNumber) then [CleanRow(r, parseDate, parseNumber, hasAddressColumn)] else [])
  {
    var before := Cleaned(RawTable(hasAddressColumn, rows), parseDate, parseNumber);
    KeepIsStepRule(r, parseDate, parseNumber);
    if DateStep(r, parseDate).None? {
      AppendWithoutDate(rows, r, parseDate, parseNumber, hasAddressColumn);
      assert before + [] == before;
    } else if NumberStep(DateStep(r, parseDate).value, parseNumber).None? {
      AppendWithoutNumbers(rows, r, parseDate, parseNumber, hasAddressColumn);
      assert before + [] == before;
    } else {
      AppendKept(rows, r, parseDate, parseNumber, hasAddressColumn);
    }
  }

  lemma AppendWithoutDate(rows: seq<RawRow>, r: RawRow, parseDate: DateParser,
                          parseNumber: NumberParser, hasAddressColumn: bool)
    requires DateStep(r, parseDate).None?
    ensures Cleaned(RawTable(hasAddressColumn, rows + [r]), parseDate, parseNumber) ==
            Cleaned(RawTable(hasAddressColumn, rows), parseDate, parseNumber)
  {
    var dated := DateStage(rows, parseDate);
    DateStageAppend(rows, r, parseDate);
    assert dated + [] == dated;
  }

  lemma AppendWithoutNumbers(rows: seq<RawRow>, r: RawRow, parseDate: DateParser,
                             parseNumber: NumberParser, hasAddressColumn: bool)
    requires DateStep(r, parseDate).Some?
    requires NumberStep(DateStep(r, parseDate).value, parseNumber).None?
    ensures Cleaned(RawTable(hasAddressColumn, rows + [r]), parseDate, parseNumber) ==
            Cleaned(RawTable(hasAddressColumn, rows), parseDate, parseNumber)
  {
    var dated := DateStage(rows, parseDate);
    var d := DateStep(r, parseDate).value;
    assert DateStage(rows + [r], parseDate) == dated + [d] by { DateStageAppend(rows, r, parseDate); }
    var parsed := NumberStage(dated, parseNumber);
    assert NumberStage(dated + [d], parseNumber) == parsed by {
      NumberStageAppend(dated, [d], parseNumber);
      assert parsed + [] == parsed;
    }
  }

  lemma AppendKept(rows: seq<RawRow>, r: RawRow, parseDate: DateParser,
                   parseNumber: NumberParser, hasAddressColumn: bool)
    requires DateStep(r, parseDate).Some?
    requires NumberStep(DateStep(r, parseDate).value, parseNumber).Some?
    ensures Cleaned(RawTable(hasAddressColumn, rows + [r]), parseDate, parseNumber) ==
            Cleaned(RawTable(hasAddressColumn, rows), parseDate, parseNumber) +
            [DeriveStep(NumberStep(DateStep(r, parseDate).value, parseNumber).value, hasAddressColumn)]
  {
    var dated := DateStage(rows, parseDate);
    var d := DateStep(r, parseDate).value;
    assert DateStage(rows + [r], parseDate) == dated + [d] by { DateStageAppend(rows, r, parseDate); }
    var parsed := NumberStage(dated, parseNumber);
    var p := NumberStep(d, parseNumber).value;
    assert NumberStage(dated + [d], parseNumber) == parsed + [p] by { NumberStageAppend(dated, [d], parseNumber); }
    DeriveStageAppend(parsed, [p], hasAddressColumn);
  }

  /** Extending the raw rows by a kept row and the cleaned rows by its
      cleaned row keeps every cleaned row paired with its raw row. */
  lemma AlignKept(rows: seq<RawRow>, df: seq<Sale>, idx: seq<nat>, r: RawRow, s: Sale,
                  parseDate: DateParser, parseNumber: NumberParser, hasAddressColumn: bool)
    requires |idx| == |df|
    requires forall j :: 0 <= j < |idx| ==>
      idx[j] < |rows| && Derived(rows[idx[j]], df[j], parseDate, parseNumber, hasAddressColumn)
    requires Derived(r, s, parseDate, parseNumber, hasAddressColumn)
    ensures var all := rows + [r]; var idx' := idx + [|rows|]; var df' := df + [s];
            |idx'| == |df'| &&
            forall j :: 0 <= j < |idx'| ==>
              idx'[j] < |all| && Derived(all[idx'[j]], df'[j], parseDate, parseNumber, hasAddressColumn)
  {
    var all := rows + [r];
    forall j | 0 <= j < |idx|
      ensures (idx + [|rows|])[j] < |all|
      ensures Derived(all[(idx + [|rows|])[j]], (df + [s])[j], parseDate, parseNumber, hasAddressColumn)
    {
      assert (idx + [|rows|])[j] == idx[j] && (df + [s])[j] == df[j] && all[idx[j]] == rows[idx[j]];
    }
  }

  /** Extending the raw rows by a dropped row keeps every cleaned row
      paired with its raw row. */
  lemma AlignDropped(rows: seq<RawRow>, df: seq<Sale>, idx: seq<nat>, r: RawRow,
                     parseDate: DateParser, parseNumber: NumberParser, hasAddressColumn: bool)
    requires forall j :: 0 <= j < |idx| && j < |df| ==>
      idx[j] < |rows| && Derived(rows[idx[j]], df[j], parseDate, parseNumber, hasAddressColumn)
    ensures forall j :: 0 <= j < |idx| && j < |df| ==>
      idx[j] < |rows + [r]| && Derived((rows + [r])[idx[j]], df[j], parseDate, parseNumber, hasAddressColumn)
  {
    forall j | 0 <= j < |idx| && j < |df|
      ensures Derived((rows + [r])[idx[j]], df[j], parseDate, parseNumber, hasAddressColumn)
    {
      assert (rows + [r])[idx[j]] == rows[idx[j]];
    }
  }

  /** The kept positions are in range, strictly increasing (so kept rows
      keep their relative order), and are exactly the rows the rule accepts. */
  lemma {:induction false} KeptIndicesSpec(rows: seq<RawRow>, parseDate: DateParser, parseNumber: NumberParser)
    ensures var idx := KeptIndices(rows, parseDate, parseNumber);
            && (forall j :: 0 <= j < |idx| ==> idx[j] < |rows|)
            && (forall j, k :: 0 <= j < k < |idx| ==> idx[j] < idx[k])
            && (forall i :: 0 <= i < |rows| ==> (Keep(rows[i], parseDate, parseNumber) <==> i in idx))
  {
    if |rows| > 0 {
      var n := |rows| - 1;
      KeptIndicesSpec(rows[..n], parseDate, parseNumber);
      var idx0 := KeptIndices(rows[..n], parseDate, parseNumber);
      var idx := KeptIndices(rows, parseDate, parseNumber);
      assert forall i :: 0 <= i < n ==> rows[i] == rows[..n][i];
      assert forall i :: 0 <= i < |rows| ==>
        (i in idx <==> i in idx0 || (i == n && Keep(rows[n], parseDate, parseNumber)));
    }
  }

  /** The cleaning contract, with `KeptIndicesSpec`: the cleaned table has
      one row per kept raw row, in the same order, and each cleaned row
      carries its raw row's values, parsed, with Sales = Quantity × Price
      and Count = 1. */
  lemma {:induction false} CleanedSpec(table: RawTable, parseDate: DateParser, parseNumber: NumberParser)
    decreases |table.rows|
    ensures var df := Cleaned(table, parseDate, parseNumber);
            var idx := KeptIndices(table.rows, parseDate, parseNumber);
            && |idx| == |df|
            && (forall j :: 0 <= j < |idx| ==>
                  idx[j] < |table.rows| &&
                  Derived(table.rows[idx[j]], df[j], parseDate, parseNumber, table.hasAddressColumn))
  {
    var rows := table.rows;
    if |rows| > 0 {
      var n := |rows| - 1;
      var h := table.hasAddressColumn;
      var r := rows[n];
      assert rows[..n] + [r] == rows;
      CleanedSpec(RawTable(h, rows[..n]), parseDate, parseNumber);
      var df0 := Cleaned(RawTable(h, rows[..n]), parseDate, parseNumber);
      var idx0 := KeptIndices(rows[..n], parseDate, parseNumber);
      CleanedAppend(rows[..n], r, parseDate, parseNumber, h);
      if Keep(r, parseDate, parseNumber) {
        AlignKept(rows[..n], df0, idx0, r, CleanRow(r, parseDate, parseNumber, h), parseDate, parseNumber, h);
      } else {
        AlignDropped(rows[..n], df0, idx0, r, parseDate, parseNumber, h);
      }
    }
  }

  /** Every row the cleaning keeps passes its rule, so a second cleaning
      would keep it too; `CleanedOfKeptRows` is the full statement. */
  lemma {:induction false} KeptRowsPassAgain(table: RawTable, parseDate: DateParser, parseNumber: NumberParser)
    ensures var idx := KeptIndices(table.rows, parseDate, parseNumber);
            forall j :: 0 <= j < |idx| ==> idx[j] < |table.rows| && Keep(table.rows[idx[j]], parseDate, parseNumber)
  {
    KeptIndicesSpec(table.rows, parseDate, parseNumber);
  }

  /** The raw rows the cleaning keeps, in their original order. */
  function KeptRows(rows: seq<RawRow>, parseDate: DateParser, parseNumber: NumberParser): seq<RawRow>
  {
    if |rows| == 0 then []
    else
      KeptRows(rows[..|rows| - 1], parseDate, parseNumber) +
      (if Keep(rows[|rows| - 1], parseDate, parseNumber) then [rows[|rows| - 1]] else [])
  }

  /** The kept rows are the rows at the kept positions. */
  lemma {:induction false} KeptRowsAt(rows: seq<RawRow>, parseDate: DateParser, parseNumber: NumberParser)
    ensures var kept := KeptRows(rows, parseDate, parseNumber);
            var idx := KeptIndices(rows, parseDate, parseNumber);
            |kept| == |idx| &&
            forall j :: 0 <= j < |idx| ==> idx[j] < |rows| && kept[j] == rows[idx[j]]
  {
    if |rows| > 0 {
      var n := |rows| - 1;
      KeptRowsAt(rows[..n], parseDate, parseNumber);
      var kept0 := KeptRows(rows[..n], parseDate, parseNumber);
      var idx0 := KeptIndices(rows[..n], parseDate, parseNumber);
      var kept := KeptRows(rows, parseDate, parseNumber);
      var idx := KeptIndices(rows, parseDate, parseNumber);
      forall j | 0 <= j < |idx0| ensures idx[j] == idx0[j] && kept[j] == rows[idx[j]] {
        assert kept[j] == kept0[j] && rows[idx0[j]] == rows[..n][idx0[j]];
      }
    }
  }

  /** Filtering distributes over concatenation. */
  lemma {:induction false} KeptRowsAppend(a: seq<RawRow>, b: seq<RawRow>, parseDate: DateParser,
                                          parseNumber: NumberParser)
    ensures KeptRows(a + b, parseDate, parseNumber) ==
            KeptRows(a, parseDate, parseNumber) + KeptRows(b, parseDate, parseNumber)
  {
    if |b| == 0 {
      assert a + b == a;
    } else {
      var n := |b| - 1;
      KeptRowsAppend(a, b[..n], parseDate, parseNumber);
      assert (a + b)[..|a + b| - 1] == a + b[..n];
    }
  }

  /** Every kept row passes the rule again: keeping is idempotent. */
  lemma {:induction false} KeptRowsIdempotent(rows: seq<RawRow>, parseDate: DateParser, parseNumber: NumberParser)
    ensures KeptRows(KeptRows(rows, parseDate, parseNumber), parseDate, parseNumber) ==
            KeptRows(rows, parseDate, parseNumber)
  {
    if |rows| > 0 {
      var n := |rows| - 1;
      var kept0 := KeptRows(rows[..n], parseDate, parseNumber);
      var last := if Keep(rows[n], parseDate, parseNumber) then [rows[n]] else [];
      KeptRowsIdempotent(rows[..n], parseDate, parseNumber);
      KeptRowsAppend(kept0, last, parseDate, parseNumber);
      if last != [] {
        assert last[..0] == [];
      }
    }
  }

  /** Cleaning idempotence: cleaning only the rows the cleaning keeps gives
      the same cleaned table as cleaning all of them. */
  lemma {:induction false} CleanedOfKeptRows(table: RawTable, parseDate: DateParser, parseNumber: NumberParser)
    ensures Cleaned(RawTable(table.hasAddressColumn, KeptRows(table.rows, parseDate, parseNumber)),
                    parseDate, parseNumber) ==
            Cleaned(table, parseDate, parseNumber)
  {
    CleanedOfKept(table.hasAddressColumn, table.rows, parseDate, parseNumber);
  }

  lemma {:induction false} CleanedOfKept(h: bool, rows: seq<RawRow>, parseDate: DateParser, parseNumber: NumberParser)
    ensures Cleaned(RawTable(h, KeptRows(rows, parseDate, parseNumber)), parseDate, parseNumber) ==
            Cleaned(RawTable(h, rows), parseDate, parseNumber)
  {
    if |rows| > 0 {
      var n := |rows| - 1;
      assert rows[..n] + [rows[n]] == rows;
      CleanedOfKept(h, rows[..n], parseDate, parseNumber);
      CleanedOfKeptStep(h, rows[..n], rows[n], parseDate, parseNumber);
    }
  }

  /** One more raw row keeps the cleaned tables of the kept rows and of
      all rows equal. */
  lemma CleanedOfKeptStep(h: bool, front: seq<RawRow>, r: RawRow, parseDate: DateParser, parseNumber: NumberParser)
    requires Cleaned(RawTable(h, KeptRows(front, parseDate, parseNumber)), parseDate, parseNumber) ==
             Cleaned(RawTable(h, front), parseDate, parseNumber)
    ensures Cleaned(RawTable(h, KeptRows(front + [r], parseDate, parseNumber)), parseDate, parseNumber) ==
            Cleaned(RawTable(h, front + [r]), parseDate, parseNumber)
  {
    var kept0 := KeptRows(front, parseDate, parseNumber);
    assert (front + [r])[..|front|] == front;
    CleanedAppend(front, r, parseDate, parseNumber, h);
    if Keep(r, parseDate, parseNumber) {
      assert KeptRows(front + [r], parseDate, parseNumber) == kept0 + [r];
      CleanedAppend(kept0, r, parseDate, parseNumber, h);
    } else {
      assert KeptRows(front + [r], parseDate, parseNumber) == kept0 + [];
      assert kept0 + [] == kept0;
    }
  }

  // =====================================================================
  // Group-by reductions behind the charts

  function MonthKey(s: Sale): Option<int> { Some(s.month as int) }
  function HourKey(s: Sale): Option<int> { Some(s.hour as int) }
  function CityKey(s: Sale): Option<string> { Some(s.city) }
  /** A missing product name is a NaN group key, which `groupby` drops. */
  function ProductKey(s: Sale): Option<string> { s.product }
  function SalesOf(s: Sale): real { s.sales }
  function QuantityOf(s: Sale): real { s.quantity }
  function PriceOf(s: Sale): real { s.price }

  /** `df.groupby("Month")["Sales"].sum()`. */
  function MonthlySales(df: seq<Sale>): seq<(int, real)>
  {
    GroupSum(df, MonthKey, SalesOf)
  }

  /** `df.groupby("City")["Sales"].sum()`. */
  function CitySales(df: seq<Sale>): seq<(string, real)>
  {
    GroupSum(df, CityKey, SalesOf)
  }

  /** `df.groupby("Hour")["Count"].count()`. */
  function HourlyOrders(df: seq<Sale>): seq<(int, nat)>
  {
    GroupCount(df, HourKey)
  }

  /** `df.groupby("Product")["Quantity Ordered"].sum()`. */
  function ProductQuantity(df: seq<Sale>): seq<(string, real)>
  {
    GroupSum(df, ProductKey, QuantityOf)
  }

  /** The same totals after `.sort_values(ascending=False)`. */
  function TopProducts(df: seq<Sale>): seq<(string, real)>
  {
    SortDescending(ProductQuantity(df))
  }

  /** `df.groupby("Product")["Price Each"].mean()`. */
  function ProductMeanPrice(df: seq<Sale>): seq<(string, real)>
  {
    GroupMean(df, ProductKey, PriceOf)
  }

  /** The monthly totals partition the total Sales: one entry per month that
      occurs, each the Sales of that month's rows, and together all Sales. */
  lemma {:induction false} MonthlySalesPartition(df: seq<Sale>)
    ensures SumOf(MonthlySales(df)) == Total(df, SalesOf)
    ensures forall m :: Find(MonthlySales(df), m).Some? ==>
      1 <= m <= 12 && Find(MonthlySales(df), m).value == SumWhere(df, MonthKey, SalesOf, m)
  {
    GroupSumPartition(df, MonthKey, SalesOf);
    forall m | Find(MonthlySales(df), m).Some? ensures 1 <= m <= 12 {
      var i := KeyOfSomeRow(df, MonthKey, m);
    }
  }

  /** The city totals partition the total Sales. */
  lemma {:induction false} CitySalesPartition(df: seq<Sale>)
    ensures SumOf(CitySales(df)) == Total(df, SalesOf)
    ensures forall c :: Find(CitySales(df), c).Some? ==>
      Find(CitySales(df), c).value == SumWhere(df, CityKey, SalesOf, c)
  {
    GroupSumPartition(df, CityKey, SalesOf);
  }

  /** The hourly order counts add up to the number of cleaned rows. */
  lemma {:induction false} HourlyOrdersTotal(df: seq<Sale>)
    ensures CountOf(HourlyOrders(df)) == |df|
    ensures forall h :: Find(HourlyOrders(df), h).Some? ==>
      Find(HourlyOrders(df), h).value == CountWhere(df, HourKey, h)
  {
    GroupCountTotal(df, HourKey);
  }

  /** The product ranking lists every product's total quantity once, largest
      first. */
  lemma TopProductsRanking(df: seq<Sale>)
    ensures NonIncreasing(TopProducts(df))
    ensures DistinctKeys(TopProducts(df)) && Keys(TopProducts(df)) == RowKeys(df, ProductKey)
    ensures |TopProducts(df)| == |ProductQuantity(df)|
    ensures forall i :: 0 <= i < |TopProducts(df)| ==>
      TopProducts(df)[i].0 in RowKeys(df, ProductKey) &&
      TopProducts(df)[i].1 == SumWhere(df, ProductKey, QuantityOf, TopProducts(df)[i].0)
  {
    var g := ProductQuantity(df);
    var r := TopProducts(df);
    SortKeys(g);
    assert |r| == |multiset(r)| == |multiset(g)| == |g|;
    forall i | 0 <= i < |r|
      ensures r[i].0 in RowKeys(df, ProductKey)
      ensures r[i].1 == SumWhere(df, ProductKey, QuantityOf, r[i].0)
    {
      assert r[i] in multiset(g);
      var m :| 0 <= m < |g| && g[m] == r[i];
      FindAt(g, m);
      KeysHold(g, m);
    }
  }
}
