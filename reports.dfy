/**
  The fifteen fixed queries of the reports page, each a function of the
  tables it reads. GROUP BY returns its groups in no particular order, so
  a report without ORDER BY promises no order, and ORDER BY ... DESC
  promises non-increasing values only: ties may come in any order.
*/
module Reports {
  import opened Results
  import opened Tables
  import opened Relational
  import Dashboard

  // ---------------------------------------------------------------------
  // 1, 2, 3, 8: one table, GROUP BY one column

  function ProviderCity(p: Provider): string { p.city }

  /** 1. Providers per city: COUNT(*) of the rows of each City, most first. */
  function ProvidersPerCity(providers: seq<Provider>): (r: seq<Group<string>>)
    ensures SortedDesc(r, ByCount) && DistinctKeys(r)
    ensures KeySet(r) == KeysOf(providers, ProviderCity)
    ensures forall i :: 0 <= i < |r| ==> r[i].count == CountOf(providers, ProviderCity, Always, r[i].key)
    ensures SumCounts(r) == |providers|
  {
    CountAllAlways(providers);
    Aggregate(providers, ProviderCity, Always, NoAmount, ByCount)
  }

  function ReceiverCity(r: Receiver): string { r.city }

  /** 2. Receivers per city. */
  function ReceiversPerCity(receivers: seq<Receiver>): (r: seq<Group<string>>)
    ensures SortedDesc(r, ByCount) && DistinctKeys(r)
    ensures KeySet(r) == KeysOf(receivers, ReceiverCity)
    ensures forall i :: 0 <= i < |r| ==> r[i].count == CountOf(receivers, ReceiverCity, Always, r[i].key)
    ensures SumCounts(r) == |receivers|
  {
    CountAllAlways(receivers);
    Aggregate(receivers, ReceiverCity, Always, NoAmount, ByCount)
  }

  function ListingProviderType(l: Listing): string { l.providerType }

  /** 3. SUM(Quantity) per Provider_Type of food_listings, largest first; the totals add up to all the food. */
  function ProviderTypeTotals(listings: seq<Listing>): (r: seq<Group<string>>)
    ensures SortedDesc(r, ByTotal) && DistinctKeys(r)
    ensures KeySet(r) == KeysOf(listings, ListingProviderType)
    ensures forall i :: 0 <= i < |r| ==> r[i].total == TotalOf(listings, ListingProviderType, Quantity, r[i].key)
    ensures SumTotals(r) == TotalAll(listings, Quantity)
  {
    Aggregate(listings, ListingProviderType, Always, Quantity, ByTotal)
  }

  function ListingFoodType(l: Listing): string { l.foodType }

  /** 8. COUNT(*) per Food_Type, most common first. */
  function FoodTypeCounts(listings: seq<Listing>): (r: seq<Group<string>>)
    ensures SortedDesc(r, ByCount) && DistinctKeys(r)
    ensures KeySet(r) == KeysOf(listings, ListingFoodType)
    ensures forall i :: 0 <= i < |r| ==> r[i].count == CountOf(listings, ListingFoodType, Always, r[i].key)
    ensures SumCounts(r) == |listings|
  {
    CountAllAlways(listings);
    Aggregate(listings, ListingFoodType, Always, NoAmount, ByCount)
  }

  // ---------------------------------------------------------------------
  // 4: a fixed city

  /** The city report 4 is written for. */
  const CONTACT_CITY: string := "New Jessica"

  datatype ContactRow = ContactRow(name: string, city: string, contact: string)

  function ContactOf(p: Provider): ContactRow { ContactRow(p.name, p.city, p.contact) }

  predicate InContactCity(p: Provider) { p.city == CONTACT_CITY }

  /**
    4. Name, City, Contact of the providers WHERE City = 'New Jessica': one
    row per such provider, so a contact row occurs as often as providers of
    that city carry it.
  */
  function ProviderContacts(providers: seq<Provider>): (r: seq<ContactRow>)
    ensures |r| == CountAll(providers, InContactCity)
    ensures forall c :: multiset(r)[c] == CountOf(providers, ContactOf, InContactCity, c)
    ensures forall i :: 0 <= i < |r| ==> r[i].city == CONTACT_CITY
    ensures forall p :: p in providers && p.city == CONTACT_CITY ==> ContactOf(p) in r
    ensures forall c :: c in r ==> exists p :: p in providers && p.city == CONTACT_CITY && ContactOf(p) == c
  {
    if providers == [] then []
    else
      var rest := ProviderContacts(providers[1..]);
      assert forall p :: p in providers[1..] ==> p in providers;
      (if providers[0].city == CONTACT_CITY then [ContactOf(providers[0])] else []) + rest
  }

  // ---------------------------------------------------------------------
  // 5: receivers LEFT JOIN claims, by name and city, LIMIT 10

  const TOP_RECEIVERS: nat := 10

  /** (r.Name, r.City): receivers of one name in one city form one group. */
  type NameCity = (string, string)

  function ReceiverNameCity(r: Receiver): NameCity { (r.name, r.city) }

  function ClaimRowNameCity(row: (Receiver, Option<Claim>)): NameCity { ReceiverNameCity(row.0) }

  /**
    5. The ten (name, city) groups of receivers with the most claims; a
    group's count is the number of claims carrying the id of any receiver of
    the group, 0 for receivers without claims. No group left out has more.
  */
  function TopReceivers(receivers: seq<Receiver>, claims: seq<Claim>): (r: seq<Group<NameCity>>)
    ensures |r| == if |KeysOf(receivers, ReceiverNameCity)| <= TOP_RECEIVERS then |KeysOf(receivers, ReceiverNameCity)| else TOP_RECEIVERS
    ensures SortedDesc(r, ByCount) && DistinctKeys(r)
    ensures KeySet(r) <= KeysOf(receivers, ReceiverNameCity)
    ensures forall i :: 0 <= i < |r| ==> r[i].count == MatchCount(receivers, claims, ClaimedBy, ReceiverNameCity, r[i].key)
    ensures forall k, i :: k in KeysOf(receivers, ReceiverNameCity) && k !in KeySet(r) && 0 <= i < |r| ==>
      MatchCount(receivers, claims, ClaimedBy, ReceiverNameCity, k) <= r[i].count
  {
    var j := LeftJoin(receivers, claims, ClaimedBy);
    LeftJoinKeys(receivers, claims, ClaimedBy, ReceiverNameCity, ClaimRowNameCity);
    var r := Top(j, ClaimRowNameCity, Present, NoAmount, ByCount, TOP_RECEIVERS);
    forall i | 0 <= i < |r|
      ensures r[i].count == MatchCount(receivers, claims, ClaimedBy, ReceiverNameCity, r[i].key)
    {
      LeftJoinCount(receivers, claims, ClaimedBy, ReceiverNameCity, ClaimRowNameCity, r[i].key);
    }
    forall k, i | k in KeysOf(receivers, ReceiverNameCity) && k !in KeySet(r) && 0 <= i < |r|
      ensures MatchCount(receivers, claims, ClaimedBy, ReceiverNameCity, k) <= r[i].count
    {
      LeftJoinCount(receivers, claims, ClaimedBy, ReceiverNameCity, ClaimRowNameCity, k);
    }
    r
  }

  /**
    Two receivers of the same name in the same city are reported as one:
    the group's count covers the claims of both.
  */
  lemma TopReceiversMerge(receivers: seq<Receiver>, claims: seq<Claim>, i: nat, j: nat, p: nat)
    requires i < j < |receivers| && ReceiverNameCity(receivers[i]) == ReceiverNameCity(receivers[j])
    requires var r := TopReceivers(receivers, claims); p < |r| && r[p].key == ReceiverNameCity(receivers[i])
    ensures TopReceivers(receivers, claims)[p].count >=
      |Matching(receivers[i], claims, ClaimedBy)| + |Matching(receivers[j], claims, ClaimedBy)|
  {
    MatchCountTwo(receivers, claims, ClaimedBy, ReceiverNameCity, i, j);
  }

  // ---------------------------------------------------------------------
  // 6: SUM without GROUP BY

  /** 6. SUM(Quantity) of food_listings: NULL (None) when the table is empty. */
  function TotalQuantity(listings: seq<Listing>): (r: Option<int>)
    ensures r.None? <==> listings == []
    ensures r.Some? ==> r.value == TotalAll(listings, Quantity)
  {
    if listings == [] then None else Some(TotalAll(listings, Quantity))
  }

  /**
    The total of report 6 is the sum of report 3's per-type totals and the
    Total Quantity card of the dashboard, and it is at least the number of
    listings when every quantity is at least 1.
  */
  lemma TotalQuantityAgrees(listings: seq<Listing>)
    requires listings != []
    ensures TotalQuantity(listings) == Some(SumTotals(ProviderTypeTotals(listings)))
    ensures TotalQuantity(listings).value == Dashboard.Metrics(listings).value.quantity
    ensures QuantitiesPositive(listings) ==> TotalQuantity(listings).value >= |listings|
  {
    if QuantitiesPositive(listings) {
      Dashboard.QuantityCoversListings(listings);
    }
  }

  // ---------------------------------------------------------------------
  // 7: food_listings JOIN providers, by provider city, LIMIT 1

  function ListingCity(row: (Listing, Provider)): string { row.1.city }

  /**
    7. The provider city with the most listings, counting each listing once
    per registered provider with its Provider_ID; listings whose provider is
    not registered are not counted. No rows when no listing has one.
  */
  function CityMostListings(listings: seq<Listing>, providers: seq<Provider>): (r: seq<Group<string>>)
    ensures |r| <= 1
    ensures r == [] <==> InnerJoin(listings, providers, ListedBy) == []
    ensures r != [] ==> r[0].count == CountOf(InnerJoin(listings, providers, ListedBy), ListingCity, Always, r[0].key)
    ensures r != [] ==> forall k :: CountOf(InnerJoin(listings, providers, ListedBy), ListingCity, Always, k) <= r[0].count
  {
    Best(InnerJoin(listings, providers, ListedBy), ListingCity)
  }

  /** The listings report 7 counts: with distinct Provider_IDs, one join row per listing whose provider is registered. */
  lemma CityListingsCounted(listings: seq<Listing>, providers: seq<Provider>)
    requires forall p, q :: 0 <= p < q < |providers| ==> providers[p].providerId != providers[q].providerId
    ensures |InnerJoin(listings, providers, ListedBy)| == |Joinable(listings, providers, ListedBy)|
  {
    InnerJoinSize(listings, providers, ListedBy);
  }

  // ---------------------------------------------------------------------
  // 9: food_listings LEFT JOIN claims, per listing

  type FoodKey = (int, string)

  function ListingKey(l: Listing): FoodKey { (l.foodId, l.foodType) }

  function ClaimRowFoodKey(row: (Listing, Option<Claim>)): FoodKey { ListingKey(row.0) }

  /**
    9. Claims per (Food_ID, Food_Type), most claimed first: every listing's
    key has a row, with the number of claims on listings of that key, 0
    for listings nobody claimed.
  */
  function ClaimsPerFood(listings: seq<Listing>, claims: seq<Claim>): (r: seq<Group<FoodKey>>)
    ensures SortedDesc(r, ByCount) && DistinctKeys(r)
    ensures KeySet(r) == KeysOf(listings, ListingKey)
    ensures forall i :: 0 <= i < |r| ==> r[i].count == MatchCount(listings, claims, ClaimOn, ListingKey, r[i].key)
  {
    var j := LeftJoin(listings, claims, ClaimOn);
    LeftJoinKeys(listings, claims, ClaimOn, ListingKey, ClaimRowFoodKey);
    var r := Aggregate(j, ClaimRowFoodKey, Present, NoAmount, ByCount);
    forall i | 0 <= i < |r|
      ensures r[i].count == MatchCount(listings, claims, ClaimOn, ListingKey, r[i].key)
    {
      LeftJoinCount(listings, claims, ClaimOn, ListingKey, ClaimRowFoodKey, r[i].key);
    }
    r
  }

  /**
    With distinct Food_IDs, report 9 has exactly one row per listing, and
    that row counts the claims on that listing.
  */
  lemma ClaimsPerFoodEachListing(listings: seq<Listing>, claims: seq<Claim>, i: nat)
    requires FoodIdsDistinct(listings) && i < |listings|
    ensures |ClaimsPerFood(listings, claims)| == |listings|
    ensures exists p :: (0 <= p < |ClaimsPerFood(listings, claims)| &&
      ClaimsPerFood(listings, claims)[p].key == ListingKey(listings[i]) &&
      ClaimsPerFood(listings, claims)[p].count == |Matching(listings[i], claims, ClaimOn)|)
  {
    var r := ClaimsPerFood(listings, claims);
    KeysOfInjective(listings, ListingKey);
    DistinctKeysSize(r);
    assert ListingKey(listings[i]) in KeySet(r);
    var p :| 0 <= p < |r| && r[p].key == ListingKey(listings[i]);
    MatchCountUnique(listings, claims, ClaimOn, ListingKey, i);
  }

  function JoinedFoodKey(row: (Listing, Claim)): FoodKey { ListingKey(row.0) }

  /**
    LEFT JOIN against JOIN: grouping the inner join the same way gives the
    same counts, but only for the keys of report 9 whose count is positive;
    the inner join drops exactly the rows of unclaimed food.
  */
  lemma LeftJoinKeepsUnclaimed(listings: seq<Listing>, claims: seq<Claim>, p: nat)
    requires p < |ClaimsPerFood(listings, claims)|
    ensures var g := ClaimsPerFood(listings, claims)[p];
      CountOf(InnerJoin(listings, claims, ClaimOn), JoinedFoodKey, Always, g.key) == g.count &&
      (g.key in KeysOf(InnerJoin(listings, claims, ClaimOn), JoinedFoodKey) <==> g.count > 0)
  {
    var g := ClaimsPerFood(listings, claims)[p];
    InnerJoinCount(listings, claims, ClaimOn, ListingKey, JoinedFoodKey, Always, g.key);
    CountOfPositive(InnerJoin(listings, claims, ClaimOn), JoinedFoodKey, g.key);
  }

  // ---------------------------------------------------------------------
  // 10: providers JOIN food_listings JOIN claims, successful claims, LIMIT 1

  const SUCCESSFUL: string := "Successful"

  type DeliveryRow = ((Provider, Listing), Claim)

  /** c.Food_ID of the claim = f.Food_ID of the joined provider row. */
  function ClaimOnOffer(offer: (Provider, Listing), c: Claim): bool { ClaimOn(offer.1, c) }

  function IsSuccessful(row: DeliveryRow): bool { row.1.status == SUCCESSFUL }

  function DeliveryProvider(row: DeliveryRow): string { row.0.0.name }

  /** The rows of report 10 before grouping: successful claims on listings of registered providers. */
  function SuccessfulDeliveries(providers: seq<Provider>, listings: seq<Listing>, claims: seq<Claim>): (rows: seq<DeliveryRow>)
    ensures forall x :: x in rows <==>
      x.0.0 in providers && x.0.1 in listings && x.1 in claims &&
      x.0.0.providerId == x.0.1.providerId && x.0.1.foodId == x.1.foodId && x.1.status == SUCCESSFUL
    ensures forall x :: (multiset(rows)[x] ==
      if x.0.0.providerId == x.0.1.providerId && x.0.1.foodId == x.1.foodId && x.1.status == SUCCESSFUL
      then Times(Times(multiset(providers)[x.0.0], multiset(listings)[x.0.1]), multiset(claims)[x.1])
      else 0)
  {
    var offers := InnerJoin(providers, listings, Lists);
    InnerJoinCopies(providers, listings, Lists);
    InnerJoinCopies(offers, claims, ClaimOnOffer);
    Where(InnerJoin(offers, claims, ClaimOnOffer), IsSuccessful)
  }

  /**
    10. The provider name with the most successful claims. Providers sharing
    a name are counted together; no rows when there is no successful claim.
  */
  function ProviderMostSuccessful(providers: seq<Provider>, listings: seq<Listing>, claims: seq<Claim>): (r: seq<Group<string>>)
    ensures |r| <= 1
    ensures r == [] <==> SuccessfulDeliveries(providers, listings, claims) == []
    ensures r != [] ==> r[0].count == CountOf(SuccessfulDeliveries(providers, listings, claims), DeliveryProvider, Always, r[0].key)
    ensures r != [] ==> forall k :: CountOf(SuccessfulDeliveries(providers, listings, claims), DeliveryProvider, Always, k) <= r[0].count
  {
    Best(SuccessfulDeliveries(providers, listings, claims), DeliveryProvider)
  }

  // ---------------------------------------------------------------------
  // 11: share of claims by status

  /** A row of report 11: a status, its number of claims, and the number of all claims. */
  datatype StatusShare = StatusShare(status: string, claims: nat, outOf: nat)

  /** COUNT(*) * 100.0 / (SELECT COUNT(*) FROM claims), before ROUND(.., 2). */
  function Percentage(s: StatusShare): real
    requires s.outOf > 0
  {
    (s.claims as real) * 100.0 / (s.outOf as real)
  }

  function ClaimStatus(c: Claim): string { c.status }

  function Shares(gs: seq<Group<string>>, outOf: nat): (r: seq<StatusShare>)
    ensures |r| == |gs|
    ensures forall i :: 0 <= i < |r| ==> r[i] == StatusShare(gs[i].key, gs[i].count, outOf)
  {
    if gs == [] then [] else [StatusShare(gs[0].key, gs[0].count, outOf)] + Shares(gs[1..], outOf)
  }

  function ShareCounts(r: seq<StatusShare>): nat
  {
    if r == [] then 0 else r[0].claims + ShareCounts(r[1..])
  }

  /**
    11. One row per status occurring in claims, with its number of claims
    out of all of them; no rows for an empty claims table, and the counts
    add up to the number of claims. No ORDER BY: the order is unspecified.
  */
  function StatusDistribution(claims: seq<Claim>): (r: seq<StatusShare>)
    ensures r == [] <==> claims == []
    ensures forall i :: 0 <= i < |r| ==>
      r[i].outOf == |claims| && r[i].claims == CountOf(claims, ClaimStatus, Always, r[i].status) && r[i].claims >= 1
    ensures forall s :: s in KeysOf(claims, ClaimStatus) <==> exists i :: 0 <= i < |r| && r[i].status == s
    ensures forall i, j :: 0 <= i < j < |r| ==> r[i].status != r[j].status
    ensures ShareCounts(r) == |claims|
  {
    var gs := GroupBy(claims, ClaimStatus, Always, NoAmount);
    var r := Shares(gs, |claims|);
    StatusRows(claims, gs, r);
    r
  }

  /** The rows of report 11 carry over what GROUP BY status promises of its groups. */
  lemma StatusRows(claims: seq<Claim>, gs: seq<Group<string>>, r: seq<StatusShare>)
    requires gs == GroupBy(claims, ClaimStatus, Always, NoAmount)
    requires r == Shares(gs, |claims|)
    ensures r == [] <==> claims == []
    ensures forall i :: 0 <= i < |r| ==>
      r[i].outOf == |claims| && r[i].claims == CountOf(claims, ClaimStatus, Always, r[i].status) && r[i].claims >= 1
    ensures forall s :: s in KeysOf(claims, ClaimStatus) <==> exists i :: 0 <= i < |r| && r[i].status == s
    ensures forall i, j :: 0 <= i < j < |r| ==> r[i].status != r[j].status
    ensures ShareCounts(r) == |claims|
  {
    StatusRowsSize(claims, gs, r);
    StatusRowsCounts(claims, gs, r);
    StatusRowsKeys(claims, gs, r);
  }

  lemma StatusRowsSize(claims: seq<Claim>, gs: seq<Group<string>>, r: seq<StatusShare>)
    requires gs == GroupBy(claims, ClaimStatus, Always, NoAmount)
    requires r == Shares(gs, |claims|)
    ensures r == [] <==> claims == []
    ensures ShareCounts(r) == |claims|
  {
    KeysOfSize(claims, ClaimStatus);
    DistinctKeysSize(gs);
    CountAllAlways(claims);
    SharesCount(gs, |claims|);
  }

  lemma StatusRowsCounts(claims: seq<Claim>, gs: seq<Group<string>>, r: seq<StatusShare>)
    requires gs == GroupBy(claims, ClaimStatus, Always, NoAmount)
    requires r == Shares(gs, |claims|)
    ensures forall i :: 0 <= i < |r| ==>
      r[i].outOf == |claims| && r[i].claims == CountOf(claims, ClaimStatus, Always, r[i].status) && r[i].claims >= 1
  {
    StatusGroups(claims, gs);
    forall i | 0 <= i < |r|
      ensures r[i].outOf == |claims| && r[i].claims == CountOf(claims, ClaimStatus, Always, r[i].status) && r[i].claims >= 1
    {
      assert r[i] == StatusShare(gs[i].key, gs[i].count, |claims|);
    }
  }

  lemma StatusRowsKeys(claims: seq<Claim>, gs: seq<Group<string>>, r: seq<StatusShare>)
    requires gs == GroupBy(claims, ClaimStatus, Always, NoAmount)
    requires r == Shares(gs, |claims|)
    ensures forall s :: s in KeysOf(claims, ClaimStatus) <==> exists i :: 0 <= i < |r| && r[i].status == s
    ensures forall i, j :: 0 <= i < j < |r| ==> r[i].status != r[j].status
  {
    assert forall i :: 0 <= i < |r| ==> r[i].status == gs[i].key;
    forall s ensures s in KeysOf(claims, ClaimStatus) <==> exists i :: 0 <= i < |r| && r[i].status == s {
      if s in KeysOf(claims, ClaimStatus) {
        var i :| 0 <= i < |gs| && gs[i].key == s;
        assert r[i].status == s;
      } else {
        forall i | 0 <= i < |r| ensures r[i].status != s {
          InKeySet(gs, i);
        }
      }
    }
  }

  /** Each status group counts the claims of its status, at least one. */
  lemma StatusGroups(claims: seq<Claim>, gs: seq<Group<string>>)
    requires gs == GroupBy(claims, ClaimStatus, Always, NoAmount)
    ensures forall i :: 0 <= i < |gs| ==> gs[i].count == CountOf(claims, ClaimStatus, Always, gs[i].key) && gs[i].count >= 1
  {
    forall i | 0 <= i < |gs|
      ensures gs[i].count == CountOf(claims, ClaimStatus, Always, gs[i].key) && gs[i].count >= 1
    {
      GroupAt(gs, i);
      InKeySet(gs, i);
      CountOfPositive(claims, ClaimStatus, gs[i].key);
    }
  }

  lemma {:induction false} SharesCount(gs: seq<Group<string>>, outOf: nat)
    ensures ShareCounts(Shares(gs, outOf)) == SumCounts(gs)
  {
    if gs != [] {
      SharesCount(gs[1..], outOf);
    }
  }

  /** The sum of the percentage column. */
  function PercentageSum(r: seq<StatusShare>): real
    requires forall i :: 0 <= i < |r| ==> r[i].outOf > 0
  {
    if r == [] then 0.0 else Percentage(r[0]) + PercentageSum(r[1..])
  }

  lemma {:induction false} PercentageSumScales(r: seq<StatusShare>, n: nat)
    requires n > 0 && forall i :: 0 <= i < |r| ==> r[i].outOf == n
    ensures PercentageSum(r) == (ShareCounts(r) as real) * 100.0 / (n as real)
  {
    if r != [] {
      PercentageSumScales(r[1..], n);
      Spread(r[0].claims as real, ShareCounts(r[1..]) as real, n as real);
    }
  }

  lemma Spread(a: real, b: real, n: real)
    requires n > 0.0
    ensures a * 100.0 / n + b * 100.0 / n == (a + b) * 100.0 / n
  {
  }

  /** Before rounding, the percentages of report 11 add up to 100. */
  lemma PercentagesTotal(claims: seq<Claim>)
    requires claims != []
    ensures PercentageSum(StatusDistribution(claims)) == 100.0
  {
    var r := StatusDistribution(claims);
    var n := |claims| as real;
    PercentageSumScales(r, |claims|);
    assert (ShareCounts(r) as real) == n;
    Whole(n);
  }

  lemma Whole(n: real)
    requires n > 0.0
    ensures n * 100.0 / n == 100.0
  {
  }

  // ---------------------------------------------------------------------
  // 12: receivers JOIN claims JOIN food_listings, per receiver name

  type ClaimedRow = ((Receiver, Claim), Listing)

  /** f.Food_ID = c.Food_ID for the claim of the joined receiver row. */
  function ListingOfClaim(rc: (Receiver, Claim), f: Listing): bool { ClaimOn(f, rc.1) }

  function ClaimedReceiverName(row: ClaimedRow): string { row.0.0.name }

  function ClaimedQuantity(row: ClaimedRow): int { row.1.quantity }

  function ClaimedRows(receivers: seq<Receiver>, claims: seq<Claim>, listings: seq<Listing>): (rows: seq<ClaimedRow>)
    ensures forall x :: x in rows <==>
      x.0.0 in receivers && x.0.1 in claims && x.1 in listings &&
      x.0.0.receiverId == x.0.1.receiverId && x.0.1.foodId == x.1.foodId
    ensures forall x :: (multiset(rows)[x] ==
      if x.0.0.receiverId == x.0.1.receiverId && x.0.1.foodId == x.1.foodId
      then Times(Times(multiset(receivers)[x.0.0], multiset(claims)[x.0.1]), multiset(listings)[x.1])
      else 0)
  {
    var claimed := InnerJoin(receivers, claims, ClaimedBy);
    InnerJoinCopies(receivers, claims, ClaimedBy);
    InnerJoinCopies(claimed, listings, ListingOfClaim);
    InnerJoin(claimed, listings, ListingOfClaim)
  }

  /**
    12. Per receiver name, the number of claimed listings and their summed
    quantity, whose quotient is AVG(f.Quantity). Every group has at least
    one row, so the average is never NULL. No ORDER BY.
  */
  function ClaimedQuantityPerReceiver(receivers: seq<Receiver>, claims: seq<Claim>, listings: seq<Listing>): (r: seq<Group<string>>)
    ensures DistinctKeys(r)
    ensures KeySet(r) == KeysOf(ClaimedRows(receivers, claims, listings), ClaimedReceiverName)
    ensures forall i :: 0 <= i < |r| ==>
      r[i].count >= 1 &&
      r[i].count == CountOf(ClaimedRows(receivers, claims, listings), ClaimedReceiverName, Always, r[i].key) &&
      r[i].total == TotalOf(ClaimedRows(receivers, claims, listings), ClaimedReceiverName, ClaimedQuantity, r[i].key)
  {
    var rows := ClaimedRows(receivers, claims, listings);
    var r := GroupBy(rows, ClaimedReceiverName, Always, ClaimedQuantity);
    forall i | 0 <= i < |r|
      ensures r[i].count >= 1
      ensures r[i].count == CountOf(rows, ClaimedReceiverName, Always, r[i].key)
      ensures r[i].total == TotalOf(rows, ClaimedReceiverName, ClaimedQuantity, r[i].key)
    {
      GroupAt(r, i);
      InKeySet(r, i);
      CountOfPositive(rows, ClaimedReceiverName, r[i].key);
    }
    r
  }

  // ---------------------------------------------------------------------
  // 13: food_listings JOIN claims, per meal type, LIMIT 1

  function MealTypeOf(l: Listing): string { l.mealType }

  function JoinedMealType(row: (Listing, Claim)): string { MealTypeOf(row.0) }

  /**
    13. The meal type with the most claims: its count is the number of
    claims on listings of that meal type, and no meal type has more. No
    rows when no claim refers to a listing.
  */
  function MostClaimedMealType(listings: seq<Listing>, claims: seq<Claim>): (r: seq<Group<string>>)
    ensures |r| <= 1
    ensures r == [] <==> InnerJoin(listings, claims, ClaimOn) == []
    ensures r != [] ==> r[0].count == MatchCount(listings, claims, ClaimOn, MealTypeOf, r[0].key)
    ensures r != [] ==> forall k :: MatchCount(listings, claims, ClaimOn, MealTypeOf, k) <= r[0].count
  {
    var j := InnerJoin(listings, claims, ClaimOn);
    var r := Best(j, JoinedMealType);
    forall k ensures CountOf(j, JoinedMealType, Always, k) == MatchCount(listings, claims, ClaimOn, MealTypeOf, k) {
      InnerJoinCount(listings, claims, ClaimOn, MealTypeOf, JoinedMealType, Always, k);
    }
    r
  }

  // ---------------------------------------------------------------------
  // 14: providers JOIN food_listings, per provider name

  function ProviderName(p: Provider): string { p.name }

  function OfferProvider(row: (Provider, Listing)): string { ProviderName(row.0) }

  function OfferQuantity(row: (Provider, Listing)): int { row.1.quantity }

  /**
    14. Per provider name, the summed quantity of the listings of every
    provider with that name, largest first. A name has a row exactly when
    some provider of that name has a listing.
  */
  function TotalDonatedPerProvider(providers: seq<Provider>, listings: seq<Listing>): (r: seq<Group<string>>)
    ensures SortedDesc(r, ByTotal) && DistinctKeys(r)
    ensures forall k :: k in KeySet(r) <==> MatchCount(providers, listings, Lists, ProviderName, k) > 0
    ensures forall i :: 0 <= i < |r| ==> r[i].total == MatchTotal(providers, listings, Lists, ProviderName, Quantity, r[i].key)
  {
    var j := InnerJoin(providers, listings, Lists);
    var r := Aggregate(j, OfferProvider, Always, OfferQuantity, ByTotal);
    forall k ensures k in KeySet(r) <==> MatchCount(providers, listings, Lists, ProviderName, k) > 0 {
      InnerJoinCount(providers, listings, Lists, ProviderName, OfferProvider, Always, k);
      CountOfPositive(j, OfferProvider, k);
    }
    forall i | 0 <= i < |r|
      ensures r[i].total == MatchTotal(providers, listings, Lists, ProviderName, Quantity, r[i].key)
    {
      InnerJoinTotal(providers, listings, Lists, ProviderName, Quantity, OfferProvider, OfferQuantity, r[i].key);
    }
    r
  }

  // ---------------------------------------------------------------------
  // 15: claims JOIN receivers, per receiver city

  function ClaimCity(row: (Claim, Receiver)): string { row.1.city }

  /**
    15. Claims per receiver city, most first. A city has a row exactly when
    some claim refers to a receiver of that city; claims whose receiver is
    not registered are dropped.
  */
  function ClaimsPerCity(claims: seq<Claim>, receivers: seq<Receiver>): (r: seq<Group<string>>)
    ensures SortedDesc(r, ByCount) && DistinctKeys(r)
    ensures forall k :: k in KeySet(r) <==>
      exists c, v :: c in claims && v in receivers && c.receiverId == v.receiverId && v.city == k
    ensures forall i :: 0 <= i < |r| ==> r[i].count == CountOf(InnerJoin(claims, receivers, ClaimantOf), ClaimCity, Always, r[i].key)
    ensures SumCounts(r) == |InnerJoin(claims, receivers, ClaimantOf)|
  {
    var j := InnerJoin(claims, receivers, ClaimantOf);
    CountAllAlways(j);
    KeysOfMembers(j, ClaimCity);
    var r := Aggregate(j, ClaimCity, Always, NoAmount, ByCount);
    forall k | exists c, v :: c in claims && v in receivers && c.receiverId == v.receiverId && v.city == k
      ensures k in KeySet(r)
    {
      var c, v :| c in claims && v in receivers && c.receiverId == v.receiverId && v.city == k;
      assert (c, v) in j;
    }
    r
  }

  /**
    With distinct Receiver_IDs, the counts of report 15 add up to the number
    of claims whose receiver is registered.
  */
  lemma ClaimsPerCityTotal(claims: seq<Claim>, receivers: seq<Receiver>)
    requires ReceiverIdsDistinct(receivers)
    ensures SumCounts(ClaimsPerCity(claims, receivers)) == |Joinable(claims, receivers, ClaimantOf)|
  {
    InnerJoinSize(claims, receivers, ClaimantOf);
  }
}
