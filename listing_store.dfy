/**
  The food_listings table as the CRUD page changes it: an INSERT with an
  AUTOINCREMENT Food_ID, the two forms of UPDATE, and DELETE by id. Each
  write is one statement committed on its own, so each is one method call.
*/
module ListingStore {
  import opened Results
  import opened Tables
  import opened Relational
  import Dates

  /** The largest rowid SQLite can hand out: a signed 64-bit integer. */
  const MAX_ROWID: int := 0x7FFF_FFFF_FFFF_FFFF

  /** SQLITE_FULL: with AUTOINCREMENT, once the largest rowid has been used no row can be inserted. */
  datatype StoreError = Full

  /** The row an INSERT stores under the id it is given: the form's eight fields, the expiry as text. */
  function NewListing(
    id: int, name: string, quantity: int, expiry: Dates.Date, providerId: int,
    providerType: string, city: string, foodType: string, mealType: string): (l: Listing)
    requires Dates.Valid(expiry) && 1000 <= expiry.year
    ensures l.foodId == id && l.foodName == name && l.quantity == quantity
    ensures Dates.ParseIso(l.expiryDate) == Some(expiry)
    ensures l.providerId == providerId && l.providerType == providerType && l.location == city
    ensures l.foodType == foodType && l.mealType == mealType
  {
    Dates.IsoRoundTrip(expiry);
    Listing(id, name, quantity, Dates.Iso(expiry), providerId, providerType, city, foodType, mealType)
  }

  /** The columns an UPDATE of Quantity and Location leaves alone agree. */
  predicate SameExceptQuantityAndLocation(a: Listing, b: Listing)
  {
    a.foodId == b.foodId && a.foodName == b.foodName && a.expiryDate == b.expiryDate &&
    a.providerId == b.providerId && a.providerType == b.providerType &&
    a.foodType == b.foodType && a.mealType == b.mealType
  }

  /**
    UPDATE food_listings SET Quantity=?[, Location=?] WHERE Food_ID=?:
    the Location form is used when the new city is non-empty.
  */
  function UpdateRows(rows: seq<Listing>, id: int, quantity: int, city: string): (r: seq<Listing>)
    ensures |r| == |rows|
    ensures forall i :: 0 <= i < |r| ==> SameExceptQuantityAndLocation(r[i], rows[i])
    ensures forall i :: 0 <= i < |r| && rows[i].foodId == id ==>
      r[i].quantity == quantity && r[i].location == (if city != "" then city else rows[i].location)
    ensures forall i :: 0 <= i < |r| && rows[i].foodId != id ==> r[i] == rows[i]
    ensures (forall i :: 0 <= i < |rows| ==> rows[i].foodId != id) ==> r == rows
  {
    if rows == [] then []
    else
      var head := rows[0];
      var updated :=
        if head.foodId != id then head
        else if city != "" then head.(quantity := quantity, location := city)
        else head.(quantity := quantity);
      [updated] + UpdateRows(rows[1..], id, quantity, city)
  }

  /** DELETE FROM food_listings WHERE Food_ID=?: every other row, in order. */
  function DeleteRows(rows: seq<Listing>, id: int): (r: seq<Listing>)
    ensures forall x :: x in r <==> x in rows && x.foodId != id
    ensures IsSubsequence(r, rows)
    ensures (forall i :: 0 <= i < |rows| ==> rows[i].foodId != id) ==> r == rows
  {
    if rows == [] then []
    else if rows[0].foodId == id then DeleteRows(rows[1..], id)
    else [rows[0]] + DeleteRows(rows[1..], id)
  }

  /** On a table whose ids increase, DELETE keeps them increasing and removes at most one row. */
  lemma {:induction false} DeleteIncreasing(rows: seq<Listing>, id: int)
    requires IdsIncreasing(rows)
    ensures IdsIncreasing(DeleteRows(rows, id))
    ensures |DeleteRows(rows, id)| >= |rows| - 1
  {
    if rows != [] {
      var tail := rows[1..];
      TailIncreasing(rows);
      DeleteIncreasing(tail, id);
      var rest := DeleteRows(tail, id);
      if rows[0].foodId == id {
        assert forall i :: 0 <= i < |tail| ==> tail[i].foodId != id by {
          forall i | 0 <= i < |tail| ensures tail[i].foodId != id {
            assert tail[i] in tail;
          }
        }
        assert rest == tail;
      } else {
        ConsIncreasing(rows[0], rest);
      }
    }
  }

  /** Below the first row of an increasing table: the rest increase, and lie above it. */
  lemma TailIncreasing(rows: seq<Listing>)
    requires IdsIncreasing(rows) && rows != []
    ensures IdsIncreasing(rows[1..])
    ensures forall x :: x in rows[1..] ==> rows[0].foodId < x.foodId
  {
    var tail := rows[1..];
    forall i, j | 0 <= i < j < |tail| ensures tail[i].foodId < tail[j].foodId {
      assert tail[i] == rows[i + 1] && tail[j] == rows[j + 1];
    }
    forall x | x in tail ensures rows[0].foodId < x.foodId {
      var k :| 0 <= k < |tail| && tail[k] == x;
      assert rows[k + 1] == x;
    }
  }

  /** A row below every row of an increasing table can go in front of it. */
  lemma ConsIncreasing(x: Listing, rest: seq<Listing>)
    requires IdsIncreasing(rest)
    requires forall y :: y in rest ==> x.foodId < y.foodId
    ensures IdsIncreasing([x] + rest)
  {
    var r := [x] + rest;
    forall i, j | 0 <= i < j < |r| ensures r[i].foodId < r[j].foodId {
      assert r[j] == rest[j - 1];
      if i > 0 {
        assert r[i] == rest[i - 1];
      } else {
        assert r[j] in rest;
      }
    }
  }

  /** Deleting twice is deleting once. */
  lemma DeleteIdempotent(rows: seq<Listing>, id: int)
    ensures DeleteRows(DeleteRows(rows, id), id) == DeleteRows(rows, id)
  {
    var once := DeleteRows(rows, id);
    forall i | 0 <= i < |once| ensures once[i].foodId != id {
      assert once[i] in once;
    }
  }

  /** The food_listings table together with its AUTOINCREMENT counter. */
  class FoodListings {
    /** The table's rows; SELECT * returns them in this (insertion) order. */
    var rows: seq<Listing>
    /** The sqlite_sequence entry of the table: the largest Food_ID ever issued, 0 before any. */
    var lastId: int
    /** Every Food_ID the table has ever issued, including those of deleted rows. */
    ghost var issued: set<int>

    ghost predicate Valid()
      reads this
    {
      0 <= lastId <= MAX_ROWID &&
      (forall id :: id in issued ==> 1 <= id <= lastId) &&
      (forall i :: 0 <= i < |rows| ==> rows[i].foodId in issued) &&
      IdsIncreasing(rows)
    }

    /** CREATE TABLE IF NOT EXISTS on a fresh store: no rows, no ids used. */
    constructor ()
      ensures Valid() && rows == [] && lastId == 0 && issued == {}
    {
      rows := [];
      lastId := 0;
      issued := {};
    }

    /**
      CREATE TABLE IF NOT EXISTS on a database that already has the table:
      its rows, with ids below or at the sqlite_sequence entry counter.
    */
    constructor Open(existing: seq<Listing>, counter: int)
      requires 0 <= counter <= MAX_ROWID && IdsIncreasing(existing)
      requires forall i :: 0 <= i < |existing| ==> 1 <= existing[i].foodId <= counter
      ensures Valid() && rows == existing && lastId == counter
    {
      rows := existing;
      lastId := counter;
      issued := set i | 0 <= i < |existing| :: existing[i].foodId;
    }

    /** SELECT * FROM food_listings: all rows, ascending by Food_ID. */
    method All() returns (s: seq<Listing>)
      requires Valid()
      ensures s == rows
      ensures IdsIncreasing(s)
    {
      s := rows;
    }

    /**
      INSERT INTO food_listings (the eight columns) VALUES (...): the new row
      gets a Food_ID above every id ever issued, and nothing else changes.
      The form only allows a quantity and a provider id of at least 1.
    */
    method Insert(
      name: string, quantity: int, expiry: Dates.Date, providerId: int,
      providerType: string, city: string, foodType: string, mealType: string)
      returns (res: Result<int, StoreError>)
      requires Valid()
      requires quantity >= 1 && providerId >= 1
      requires Dates.Valid(expiry) && 1000 <= expiry.year
      modifies this
      ensures Valid()
      ensures old(lastId) == MAX_ROWID ==>
        res == Err(Full) && rows == old(rows) && lastId == old(lastId) && issued == old(issued)
      ensures old(lastId) < MAX_ROWID ==>
        res == Ok(old(lastId) + 1) &&
        rows == old(rows) + [NewListing(res.value, name, quantity, expiry, providerId, providerType, city, foodType, mealType)] &&
        lastId == res.value &&
        issued == old(issued) + {res.value} &&
        (forall a :: a in old(issued) ==> a < res.value)
      ensures old(lastId) < MAX_ROWID ==> TotalAll(rows, Quantity) == TotalAll(old(rows), Quantity) + quantity
      ensures QuantitiesPositive(old(rows)) ==> QuantitiesPositive(rows)
    {
      if lastId == MAX_ROWID {
        return Err(Full);
      }
      var id := lastId + 1;
      var row := NewListing(id, name, quantity, expiry, providerId, providerType, city, foodType, mealType);
      TotalAllAppend(rows, [row], Quantity);
      assert TotalAll([row], Quantity) == quantity;
      rows := rows + [row];
      lastId := id;
      issued := issued + {id};
      res := Ok(id);
    }

    /**
      The UPDATE of the CRUD page: Quantity, and Location too when the new
      city is non-empty, of the row with Food_ID id; no such row, no change.
    */
    method Update(id: int, quantity: int, city: string)
      requires Valid()
      requires quantity >= 1
      modifies this
      ensures Valid()
      ensures rows == UpdateRows(old(rows), id, quantity, city)
      ensures lastId == old(lastId) && issued == old(issued)
      ensures QuantitiesPositive(old(rows)) ==> QuantitiesPositive(rows)
    {
      rows := UpdateRows(rows, id, quantity, city);
    }

    /** DELETE FROM food_listings WHERE Food_ID=?: ids are not handed out again. */
    method Delete(id: int)
      requires Valid()
      modifies this
      ensures Valid()
      ensures rows == DeleteRows(old(rows), id)
      ensures lastId == old(lastId) && issued == old(issued)
      ensures QuantitiesPositive(old(rows)) ==> QuantitiesPositive(rows)
    {
      DeleteIncreasing(rows, id);
      rows := DeleteRows(rows, id);
    }
  }

  /** Deleting the id of an appended row whose id no earlier row has removes exactly that row. */
  lemma {:induction false} DeleteSuffix(rows: seq<Listing>, x: Listing)
    requires forall i :: 0 <= i < |rows| ==> rows[i].foodId != x.foodId
    ensures DeleteRows(rows + [x], x.foodId) == rows
  {
    if rows == [] {
      assert rows + [x] == [x];
    } else {
      assert (rows + [x])[1..] == rows[1..] + [x];
      DeleteSuffix(rows[1..], x);
      assert rows == [rows[0]] + rows[1..];
    }
  }
}
