/** php-backend/get-car-details.php: the method and id guards, and one listing
    read with a left join to the user whose username is its seller. */
module CarDetails {
  import opened Wrappers
  import opened Text
  import opened Store
  import opened Request

  /** The row `SELECT cl.*, u.name, u.phone, u.email ... LEFT JOIN users u`
      returns: every listing column, and the seller's columns or null. */
  datatype Details = Details(
    listing: ListingRow, sellerName: Option<string>, sellerPhone: Option<string>, sellerEmail: Option<string>)

  /** An error status with its message, or the car found. */
  datatype DetailsResponse = Failed(status: int, message: string) | Found(car: Details) | Preflight

  const MethodNotAllowed := "Method not allowed"
  const IdRequired := "Car ID is required"
  const NotFound := "Car not found"
  const FetchFailed := "Failed to fetch car details"

  /** `WHERE cl.id = ?` with the id string bound. In this model a string of
      digits (with an optional sign) selects the listing with that number as
      its id, and any other string selects none; MySQL's own conversion of
      other strings to a number is not modelled. */
  function ListingFor(listings: seq<ListingRow>, carId: string): (r: Option<ListingRow>)
    ensures r.Some? ==> r.value in listings && IsIntegerString(carId) && r.value.id == IntegerValue(carId)
    ensures r.None? <==>
              !IsIntegerString(carId) || forall i :: 0 <= i < |listings| ==> listings[i].id != IntegerValue(carId)
  {
    if IsIntegerString(carId) then FindListing(listings, IntegerValue(carId)) else None
  }

  /** The left join: the seller's name, phone and email when a user has the
      listing's seller as username, nulls otherwise. */
  function JoinSeller(listing: ListingRow, users: seq<UserRow>): (d: Details)
    ensures d.listing == listing
    ensures d.sellerName.Some? <==> exists i :: 0 <= i < |users| && users[i].username == listing.seller
    ensures d.sellerName.Some? == d.sellerPhone.Some? == d.sellerEmail.Some?
  {
    match FindUser(users, listing.seller)
    case Some(u) => Details(listing, Some(u.name), Some(u.phone), Some(u.email))
    case None => Details(listing, None, None, None)
  }

  /** The request. `requestMethod` is REQUEST_METHOD, `id` the query
      parameter, and `fault` a PDOException raised by the statement. A CORS
      preflight (OPTIONS) ends in config/database.php with the headers and an
      empty body, before the method guard. */
  function GetCarDetails(listings: seq<ListingRow>, users: seq<UserRow>, requestMethod: string,
                         id: Option<string>, fault: bool): (r: DetailsResponse)
    ensures requestMethod == "OPTIONS" ==> r == Preflight
    ensures requestMethod != "GET" && requestMethod != "OPTIONS" ==> r == Failed(405, MethodNotAllowed)
    ensures requestMethod == "GET" && (id.None? || IsFalsyString(id.value)) ==> r == Failed(400, IdRequired)
    ensures requestMethod == "GET" && id.Some? && !IsFalsyString(id.value) && fault ==> r == Failed(500, FetchFailed)
    ensures r.Found? <==>
              requestMethod == "GET" && id.Some? && !IsFalsyString(id.value) && !fault
              && ListingFor(listings, id.value).Some?
    ensures r.Found? ==> r.car == JoinSeller(ListingFor(listings, id.value).value, users)
    ensures r.Failed? ==> r.status in {400, 404, 405, 500}
  {
    if requestMethod == "OPTIONS" then Preflight
    else if requestMethod != "GET" then Failed(405, MethodNotAllowed)
    else if id.None? || IsFalsyString(id.value) then Failed(400, IdRequired)
    else if fault then Failed(500, FetchFailed)
    else match ListingFor(listings, id.value)
      case Some(listing) => Found(JoinSeller(listing, users))
      case None => Failed(404, NotFound)
  }

  /** With unique usernames, the seller fields are those of the one user
      whose username is the listing's seller. */
  lemma SellerJoined(listing: ListingRow, users: seq<UserRow>, k: nat)
    requires forall i, j :: 0 <= i < j < |users| ==> users[i].username != users[j].username
    requires k < |users| && users[k].username == listing.seller
    ensures JoinSeller(listing, users) ==
              Details(listing, Some(users[k].name), Some(users[k].phone), Some(users[k].email))
  {
    var u := FindUser(users, listing.seller).value;
    var i :| 0 <= i < |users| && users[i] == u;
  }

  /** A listing whose seller has no account is still returned, with null
      seller fields. */
  lemma NoSellerStillFound(listings: seq<ListingRow>, users: seq<UserRow>, id: string)
    requires ListingFor(listings, id).Some? && !IsFalsyString(id)
    requires forall i :: 0 <= i < |users| ==> users[i].username != ListingFor(listings, id).value.seller
    ensures GetCarDetails(listings, users, "GET", Some(id), false) ==
              Found(Details(ListingFor(listings, id).value, None, None, None))
  {
  }

  /** A listing just inserted is found under its id written in decimal, as
      add-car.php sends it back. */
  lemma InsertedListingFound(listings: seq<ListingRow>, row: ListingRow, users: seq<UserRow>)
    requires row.id >= 1 && forall i :: 0 <= i < |listings| ==> listings[i].id < row.id
    ensures GetCarDetails(listings + [row], users, "GET", Some(DecimalString(row.id)), false) ==
              Found(JoinSeller(row, users))
  {
    DecimalRoundTrip(row.id);
    var all := listings + [row];
    var d := DecimalString(row.id);
    assert d != "" && d != "0" by {
      assert IntegerValue(d) == row.id;
    }
    FindListingAppended(listings, row);
  }

  lemma {:induction false} FindListingAppended(rows: seq<ListingRow>, row: ListingRow)
    requires forall i :: 0 <= i < |rows| ==> rows[i].id != row.id
    ensures FindListing(rows + [row], row.id) == Some(row)
  {
    if rows != [] {
      assert (rows + [row])[1..] == rows[1..] + [row];
      FindListingAppended(rows[1..], row);
    }
  }
}
