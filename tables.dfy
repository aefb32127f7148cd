/**
  The rows of the five tables the dashboard reads. food_listings is the
  only table it writes; providers, receivers and claims are seeded from
  outside and only read.
*/
module Tables {

  /** A row of food_listings: Food_ID, then the eight columns an INSERT supplies. */
  datatype Listing = Listing(
    foodId: int,
    foodName: string,
    quantity: int,
    expiryDate: string,
    providerId: int,
    providerType: string,
    location: string,
    foodType: string,
    mealType: string)

  /** A row of providers: Provider_ID, Name, Type, City, Contact. */
  datatype Provider = Provider(providerId: int, name: string, providerType: string, city: string, contact: string)

  /** A row of receivers: Receiver_ID, Name, Type, City, Contact. */
  datatype Receiver = Receiver(receiverId: int, name: string, receiverType: string, city: string, contact: string)

  /** A row of claims: Claim_ID, the claimed Food_ID, the claiming Receiver_ID and the Status. */
  datatype Claim = Claim(claimId: int, foodId: int, receiverId: int, status: string)

  /** The Quantity column, as the summed column of SUM(Quantity). */
  function Quantity(l: Listing): int { l.quantity }

  /** Food_ID strictly increases along the rows: the order ids were assigned in. */
  predicate IdsIncreasing(rows: seq<Listing>)
  {
    forall i, j :: 0 <= i < j < |rows| ==> rows[i].foodId < rows[j].foodId
  }

  /** Every listing offers at least one unit: the form's number inputs start at 1. */
  predicate QuantitiesPositive(rows: seq<Listing>)
  {
    forall i :: 0 <= i < |rows| ==> rows[i].quantity >= 1
  }

  /** No two listings share a Food_ID. */
  predicate FoodIdsDistinct(rows: seq<Listing>)
  {
    forall i, j :: 0 <= i < j < |rows| ==> rows[i].foodId != rows[j].foodId
  }

  /** No two receivers share a Receiver_ID. */
  predicate ReceiverIdsDistinct(receivers: seq<Receiver>)
  {
    forall i, j :: 0 <= i < j < |receivers| ==> receivers[i].receiverId != receivers[j].receiverId
  }

  // ---------------------------------------------------------------------
  // The join conditions of the queries: the columns that refer across tables

  /** r.Receiver_ID = c.Receiver_ID, receivers on the left. */
  function ClaimedBy(r: Receiver, c: Claim): bool { r.receiverId == c.receiverId }

  /** c.Receiver_ID = r.Receiver_ID, claims on the left. */
  function ClaimantOf(c: Claim, r: Receiver): bool { c.receiverId == r.receiverId }

  /** f.Food_ID = c.Food_ID, listings on the left. */
  function ClaimOn(f: Listing, c: Claim): bool { f.foodId == c.foodId }

  /** f.Provider_ID = p.Provider_ID, listings on the left. */
  function ListedBy(f: Listing, p: Provider): bool { f.providerId == p.providerId }

  /** p.Provider_ID = f.Provider_ID, providers on the left. */
  function Lists(p: Provider, f: Listing): bool { p.providerId == f.providerId }
}
