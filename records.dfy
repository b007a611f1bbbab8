/** The sales record as read from the CSV files, the calendar value the date
    parser yields, and the row concatenation of several files. */
module Records {
  import opened Wrappers
  import opened PyStr

  type MonthOfYear = m: int | 1 <= m <= 12 witness 1
  type DayOfMonth = d: int | 1 <= d <= 31 witness 1
  type HourOfDay = h: int | 0 <= h < 24
  type MinuteOfHour = m: int | 0 <= m < 60

  /** A parsed order timestamp (`.dt.month`, `.dt.hour`, `.dt.minute`). */
  datatype DateTime = DateTime(year: int, month: MonthOfYear, day: DayOfMonth,
                               hour: HourOfDay, minute: MinuteOfHour)

  /** One CSV line: every cell is its text, or `None` when pandas reads it
      as NaN (an empty cell). Columns: Order Date, Product, Quantity Ordered,
      Price Each, Purchase Address. */
  datatype RawRow = RawRow(orderDate: Option<string>, product: Option<string>,
                           quantity: Option<string>, price: Option<string>,
                           address: Option<string>)

  /** `pd.to_datetime` and `pd.to_numeric` on one cell's text: library
      parsers outside the model, given as partial functions (`None` for
      text they cannot convert). */
  type DateParser = string -> Option<DateTime>
  type NumberParser = string -> Option<real>

  /** `pd.to_numeric(column, errors="coerce")` on one cell: a missing cell
      stays missing, unparsable text becomes missing. */
  function ToNumeric(cell: Option<string>, parse: NumberParser): Option<real>
  {
    match cell
    case None => None
    case Some(text) => parse(text)
  }

  /** `pd.concat(tables, ignore_index=True)`: the rows of every table, table
      after table. */
  function Concat(tables: seq<seq<RawRow>>): (rows: seq<RawRow>)
  {
    if |tables| == 0 then []
    else Concat(tables[..|tables| - 1]) + tables[|tables| - 1]
  }

  function TotalLength(tables: seq<seq<RawRow>>): nat
  {
    if |tables| == 0 then 0
    else TotalLength(tables[..|tables| - 1]) + |tables[|tables| - 1]|
  }

  /** Concatenation keeps every row of every table and adds none; its
      length is the sum of the tables' lengths. */
  lemma {:induction false} ConcatRows(tables: seq<seq<RawRow>>)
    ensures |Concat(tables)| == TotalLength(tables)
    ensures forall r :: r in Concat(tables) <==> exists t :: 0 <= t < |tables| && r in tables[t]
  {
    if |tables| > 0 {
      var front := tables[..|tables| - 1];
      var last := tables[|tables| - 1];
      ConcatRows(front);
      forall r ensures r in Concat(tables) <==> exists t :: 0 <= t < |tables| && r in tables[t] {
        if r in Concat(tables) {
          if r in Concat(front) {
            var t :| 0 <= t < |front| && r in front[t];
            assert tables[t] == front[t];
          } else {
            assert r in tables[|tables| - 1];
          }
        }
        if exists t :: 0 <= t < |tables| && r in tables[t] {
          var t :| 0 <= t < |tables| && r in tables[t];
          if t < |tables| - 1 {
            assert front[t] == tables[t];
          }
        }
      }
    }
  }

  // ---------------------------------------------------------------------
  // The text formats of the "Purchase Address" and "Order Date" cells

  /** The address has a third comma piece, and that piece has a token 1
      when split on single spaces. */
  predicate HasStateToken(a: string)
  {
    |Split(a, ',')| >= 3 && |Split(Split(a, ',')[2], ' ')| >= 2
  }

  /** An address as the sample data writes it: `"street, city, ST zip"`. */
  function FormatAddress(street: string, city: string, state: string, zip: string): string
  {
    street + ", " + city + ", " + state + " " + zip
  }

  /** What a well-formed address is made of: no part holds a comma, the city
      has no surrounding whitespace and the state code no space. */
  predicate WellFormedParts(street: string, city: string, state: string, zip: string)
  {
    && ',' !in street && ',' !in city && ',' !in state && ',' !in zip
    && ' ' !in state
    && (city != [] ==> city[0] !in Whitespace && city[|city| - 1] !in Whitespace)
  }

  lemma {:induction false} SplitFormattedAddress(street: string, city: string, state: string, zip: string)
    requires WellFormedParts(street, city, state, zip)
    ensures Split(FormatAddress(street, city, state, zip), ',') == [street, " " + city, " " + state + " " + zip]
    ensures Split(" " + state + " " + zip, ' ')[..2] == ["", state]
  {
    SplitAddressPieces(street, city, state, zip);
    SplitStateZip(state, zip);
  }

  lemma SplitAddressPieces(street: string, city: string, state: string, zip: string)
    requires ',' !in street && ',' !in city && ',' !in state && ',' !in zip
    ensures Split(FormatAddress(street, city, state, zip), ',') == [street, " " + city, " " + state + " " + zip]
  {
    var pieces := [street, " " + city, " " + state + " " + zip];
    assert Join(pieces, ',') == FormatAddress(street, city, state, zip) by {
      assert pieces[1..][1..] == [" " + state + " " + zip];
      assert Join(pieces[1..], ',') == " " + city + [','] + (" " + state + " " + zip);
      assert Join(pieces, ',') == street + [','] + (" " + city + [','] + (" " + state + " " + zip));
    }
    SplitJoin(pieces, ',');
  }

  lemma SplitStateZip(state: string, zip: string)
    requires ' ' !in state
    ensures Split(" " + state + " " + zip, ' ')[..2] == ["", state]
  {
    SplitAtSep([], state + " " + zip, ' ');
    assert [] + [' '] + (state + " " + zip) == " " + state + " " + zip;
    SplitAtSep(state, zip, ' ');
    assert state + [' '] + zip == state + " " + zip;
    SplitWithoutSep(state, ' ');
    assert Split([], ' ') == [""];
  }

  /** An order date as the sample data writes it: `"MM/DD/YY HH:MM"`. */
  function FormatOrderDate(at: DateTime): string
  {
    TwoDigits(at.month) + "/" + TwoDigits(at.day) + "/" + TwoDigits(at.year % 100) + " " +
    TwoDigits(at.hour) + ":" + TwoDigits(at.minute)
  }
}
