/** The two tables of the relational store, `users` and `car_listings`, held in
    memory: each is a sequence of rows in insertion order with an
    auto-increment counter, and the queries the endpoints run on them are
    functions over those rows. Matching is exact (a binary collation). */
module Store {
  import opened Wrappers

  datatype UserRow = UserRow(
    id: nat, name: string, username: string, email: string,
    passwordHash: string, address: string, phone: string)

  datatype ListingRow = ListingRow(
    id: nat, make: string, model: string, year: int, mileage: int,
    location: string, price: int, seller: string)

  // ---------------------------------------------------------------------------
  // Queries over rows
  // ---------------------------------------------------------------------------

  /** `SELECT * FROM users WHERE username = ?`, first row fetched. */
  function FindUser(rows: seq<UserRow>, username: string): (r: Option<UserRow>)
    ensures r.Some? ==> r.value in rows && r.value.username == username
    ensures r.None? <==> forall i :: 0 <= i < |rows| ==> rows[i].username != username
  {
    if rows == [] then None
    else if rows[0].username == username then Some(rows[0])
    else FindUser(rows[1..], username)
  }

  /** `SELECT id FROM users WHERE username = ? OR email = ?` has a row. */
  predicate UsernameOrEmailTaken(rows: seq<UserRow>, username: string, email: string) {
    exists i :: 0 <= i < |rows| && (rows[i].username == username || rows[i].email == email)
  }

  /** `... FROM car_listings WHERE id = ?`, first row fetched. */
  function FindListing(rows: seq<ListingRow>, id: int): (r: Option<ListingRow>)
    ensures r.Some? ==> r.value in rows && r.value.id == id
    ensures r.None? <==> forall i :: 0 <= i < |rows| ==> rows[i].id != id
  {
    if rows == [] then None
    else if rows[0].id == id then Some(rows[0])
    else FindListing(rows[1..], id)
  }

  predicate IdsAscending(rows: seq<ListingRow>) {
    forall i, j :: 0 <= i < j < |rows| ==> rows[i].id < rows[j].id
  }

  predicate IdsDescending(rows: seq<ListingRow>) {
    forall i, j :: 0 <= i < j < |rows| ==> rows[i].id > rows[j].id
  }

  function Reverse<T>(s: seq<T>): (r: seq<T>)
    ensures |r| == |s|
    ensures forall i :: 0 <= i < |s| ==> r[i] == s[|s| - 1 - i]
    ensures multiset(r) == multiset(s)
  {
    if s == [] then []
    else
      assert s == [s[0]] + s[1..];
      Reverse(s[1..]) + [s[0]]
  }

  /** `ORDER BY id DESC` over rows kept in insertion order: every row once, the
      highest id first. */
  function OrderByIdDesc(rows: seq<ListingRow>): (r: seq<ListingRow>)
    requires IdsAscending(rows)
    ensures IdsDescending(r)
    ensures multiset(r) == multiset(rows)
  {
    Reverse(rows)
  }

  // ---------------------------------------------------------------------------
  // The tables
  // ---------------------------------------------------------------------------

  /** The `users` table; username and email are unique keys. */
  class UsersTable {
    var rows: seq<UserRow>
    var nextId: nat

    ghost predicate Valid()
      reads this
    {
      && nextId >= 1
      && (forall i :: 0 <= i < |rows| ==> 1 <= rows[i].id < nextId)
      && (forall i, j :: 0 <= i < j < |rows| ==> rows[i].id < rows[j].id)
      && (forall i, j :: 0 <= i < j < |rows| ==> rows[i].username != rows[j].username)
      && (forall i, j :: 0 <= i < j < |rows| ==> rows[i].email != rows[j].email)
    }

    constructor ()
      ensures Valid() && rows == [] && nextId == 1
    {
      rows, nextId := [], 1;
    }

    /** `INSERT INTO users (...)`: appends one row with the next id. The keys are
        fresh, as the unique indexes demand. */
    method Insert(name: string, username: string, email: string, passwordHash: string,
                  address: string, phone: string) returns (id: nat)
      requires Valid()
      requires !UsernameOrEmailTaken(rows, username, email)
      modifies this
      ensures Valid()
      ensures id == old(nextId) && nextId == old(nextId) + 1
      ensures rows == old(rows) + [UserRow(id, name, username, email, passwordHash, address, phone)]
    {
      id := nextId;
      rows := rows + [UserRow(id, name, username, email, passwordHash, address, phone)];
      nextId := nextId + 1;
    }
  }

  /** The `car_listings` table; ids come from an auto-increment counter. */
  class ListingsTable {
    var rows: seq<ListingRow>
    var nextId: nat

    ghost predicate Valid()
      reads this
    {
      && nextId >= 1
      && (forall i :: 0 <= i < |rows| ==> 1 <= rows[i].id < nextId)
      && IdsAscending(rows)
    }

    constructor ()
      ensures Valid() && rows == [] && nextId == 1
    {
      rows, nextId := [], 1;
    }

    /** `INSERT INTO car_listings (...)`; the id returned is what lastInsertId()
        reports. */
    method Insert(make: string, model: string, year: int, mileage: int,
                  location: string, price: int, seller: string) returns (id: nat)
      requires Valid()
      modifies this
      ensures Valid()
      ensures id == old(nextId) && id >= 1 && nextId == old(nextId) + 1
      ensures rows == old(rows) + [ListingRow(id, make, model, year, mileage, location, price, seller)]
    {
      id := nextId;
      rows := rows + [ListingRow(id, make, model, year, mileage, location, price, seller)];
      nextId := nextId + 1;
    }
  }
}
