/** php-backend/cars.php: every listing, newest first, in the shape the client
    expects. The row formatter is shared with php-backend/search-cars.php. */
module Cars {
  import opened Text
  import opened Store

  /** A listing as the client receives it: the id as a string, the numbers as
      integers and the text fields HTML-escaped. */
  datatype Car = Car(
    id: string, make: string, model: string, year: int, mileage: int,
    location: string, price: int, seller: string)

  /** The array_map callback: (string) of the id, htmlspecialchars of the text
      columns, (int) of the numeric ones. */
  function FormatRow(row: ListingRow): Car {
    Car(DecimalString(row.id), HtmlEscape(row.make), HtmlEscape(row.model), row.year, row.mileage,
        HtmlEscape(row.location), row.price, HtmlEscape(row.seller))
  }

  /** A formatted car carries its row's id, which parses back as an integer,
      its row's numbers, and text free of < > " and '. */
  lemma FormatRowMeaning(row: ListingRow)
    ensures var c := FormatRow(row);
            && IsIntegerString(c.id) && IntegerValue(c.id) == row.id
            && c.year == row.year && c.mileage == row.mileage && c.price == row.price
            && HtmlSafe(c.make) && HtmlSafe(c.model) && HtmlSafe(c.location) && HtmlSafe(c.seller)
  {
    DecimalRoundTrip(row.id);
    HtmlEscapeIsSafe(row.make);
    HtmlEscapeIsSafe(row.model);
    HtmlEscapeIsSafe(row.location);
    HtmlEscapeIsSafe(row.seller);
  }

  /** array_map over the fetched rows: one car per row, in the same order. */
  function FormatRows(rows: seq<ListingRow>): (cars: seq<Car>)
    ensures |cars| == |rows|
    ensures forall i :: 0 <= i < |rows| ==> cars[i] == FormatRow(rows[i])
  {
    seq(|rows|, i requires 0 <= i < |rows| => FormatRow(rows[i]))
  }

  /** The endpoint: `SELECT * FROM car_listings ORDER BY id DESC`, formatted;
      `fault` stands for a PDOException, answered with an empty array. */
  function ListCars(table: ListingsTable, fault: bool): (cars: seq<Car>)
    reads table
    requires table.Valid()
    ensures fault ==> cars == []
    ensures !fault ==> |cars| == |table.rows|
  {
    if fault then [] else FormatRows(OrderByIdDesc(table.rows))
  }

  /** Every listing is sent, once, newest first: entry i is the i-th row from
      the end of the table, and the ids sent are strictly decreasing. */
  lemma ListCarsMeaning(table: ListingsTable)
    requires table.Valid()
    ensures var cars, rows := ListCars(table, false), table.rows;
            && |cars| == |rows|
            && (forall i :: 0 <= i < |rows| ==> cars[i] == FormatRow(rows[|rows| - 1 - i]))
            && (forall i :: 0 <= i < |cars| ==> IsIntegerString(cars[i].id))
            && (forall i, j :: 0 <= i < j < |cars| ==> IntegerValue(cars[i].id) > IntegerValue(cars[j].id))
  {
    var rows := table.rows;
    var desc := OrderByIdDesc(rows);
    forall i | 0 <= i < |rows|
      ensures IsIntegerString(FormatRow(desc[i]).id) && IntegerValue(FormatRow(desc[i]).id) == desc[i].id
    {
      FormatRowMeaning(desc[i]);
    }
  }
}
