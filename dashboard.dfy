/**
  The read side of the dashboard: the four KPI cards, the three multiselect
  filters, the provider summary of the directory page and the receiver
  directory with its table-existence guard.
*/
module Dashboard {
  import opened Results
  import opened Tables
  import opened Relational

  // ---------------------------------------------------------------------
  // KPI cards

  /** Total Listings, Total Quantity, Unique Providers, Cities Covered. */
  datatype Kpis = Kpis(listings: nat, quantity: int, providers: nat, cities: nat)

  function ProviderIdOf(l: Listing): int { l.providerId }

  function LocationOf(l: Listing): string { l.location }

  /** The cards, shown only when the table has rows (otherwise an info message: None). */
  function Metrics(df: seq<Listing>): (r: Option<Kpis>)
    ensures r.None? <==> df == []
    ensures r.Some? ==> r.value.listings == |df| && r.value.quantity == TotalAll(df, Quantity)
    ensures r.Some? ==> r.value.providers == |KeysOf(df, ProviderIdOf)| && r.value.cities == |KeysOf(df, LocationOf)|
    ensures r.Some? ==> 1 <= r.value.providers <= r.value.listings && 1 <= r.value.cities <= r.value.listings
  {
    if df == [] then None
    else
      KeysOfSize(df, ProviderIdOf);
      KeysOfSize(df, LocationOf);
      Some(Kpis(|df|, TotalAll(df, Quantity), |KeysOf(df, ProviderIdOf)|, |KeysOf(df, LocationOf)|))
  }

  /** With every quantity at least 1, Total Quantity is at least Total Listings. */
  lemma {:induction false} QuantityCoversListings(df: seq<Listing>)
    requires QuantitiesPositive(df)
    ensures TotalAll(df, Quantity) >= |df|
  {
    if df != [] {
      assert QuantitiesPositive(df[1..]) by {
        forall i | 0 <= i < |df[1..]| ensures df[1..][i].quantity >= 1 {
          assert df[1..][i] == df[i + 1];
        }
      }
      QuantityCoversListings(df[1..]);
    }
  }

  // ---------------------------------------------------------------------
  // Filters

  /** The column a multiselect filters on. */
  datatype Column = Location | FoodType | ProviderType

  function Cell(l: Listing, c: Column): string
  {
    match c
    case Location => l.location
    case FoodType => l.foodType
    case ProviderType => l.providerType
  }

  /** df[column].isin(selected) as a row condition. */
  function IsIn(c: Column, selected: seq<string>): Listing -> bool
  {
    (l: Listing) => Cell(l, c) in selected
  }

  /** The three selections; an empty one means that filter is off. */
  datatype Selection = Selection(cities: seq<string>, foodTypes: seq<string>, providerTypes: seq<string>)

  predicate Admits(selected: seq<string>, v: string)
  {
    selected == [] || v in selected
  }

  /** A row is shown when each filter that is on admits its value. */
  predicate Passes(sel: Selection, l: Listing)
  {
    Admits(sel.cities, l.location) && Admits(sel.foodTypes, l.foodType) && Admits(sel.providerTypes, l.providerType)
  }

  function Keep(sel: Selection): Listing -> bool
  {
    (l: Listing) => Passes(sel, l)
  }

  /** The rows the filters leave: those passing all three, in their original order. */
  function Filtered(df: seq<Listing>, sel: Selection): (r: seq<Listing>)
    ensures forall x :: x in r <==> x in df && Passes(sel, x)
    ensures IsSubsequence(r, df)
    ensures sel.cities == [] && sel.foodTypes == [] && sel.providerTypes == [] ==> r == df
  {
    if sel.cities == [] && sel.foodTypes == [] && sel.providerTypes == [] then
      WhereAll(df, Keep(sel));
      Where(df, Keep(sel))
    else
      Where(df, Keep(sel))
  }

  function CityStage(sel: Selection): Listing -> bool
  {
    (l: Listing) => Admits(sel.cities, l.location)
  }

  function CityAndTypeStage(sel: Selection): Listing -> bool
  {
    (l: Listing) => Admits(sel.cities, l.location) && Admits(sel.foodTypes, l.foodType)
  }

  /**
    The filter block: each non-empty selection narrows df in turn, city,
    then food type, then provider type. The outcome is the single filter
    by all three conditions.
  */
  method ApplyFilters(df: seq<Listing>, sel: Selection) returns (r: seq<Listing>)
    ensures r == Filtered(df, sel)
  {
    r := df;
    if sel.cities != [] {
      r := Where(r, IsIn(Location, sel.cities));
      WhereAgree(df, IsIn(Location, sel.cities), CityStage(sel));
    } else {
      WhereAll(df, CityStage(sel));
    }
    assert r == Where(df, CityStage(sel));
    if sel.foodTypes != [] {
      r := Where(r, IsIn(FoodType, sel.foodTypes));
      WhereCompose(df, CityStage(sel), IsIn(FoodType, sel.foodTypes), CityAndTypeStage(sel));
    } else {
      WhereAgree(df, CityStage(sel), CityAndTypeStage(sel));
    }
    assert r == Where(df, CityAndTypeStage(sel));
    if sel.providerTypes != [] {
      r := Where(r, IsIn(ProviderType, sel.providerTypes));
      WhereCompose(df, CityAndTypeStage(sel), IsIn(ProviderType, sel.providerTypes), Keep(sel));
    } else {
      WhereAgree(df, CityAndTypeStage(sel), Keep(sel));
    }
  }

  function Both(c1: Column, s1: seq<string>, c2: Column, s2: seq<string>): Listing -> bool
  {
    l => Cell(l, c1) in s1 && Cell(l, c2) in s2
  }

  /** The order in which two filters are applied does not matter. */
  lemma FiltersCommute(df: seq<Listing>, c1: Column, s1: seq<string>, c2: Column, s2: seq<string>)
    ensures Where(Where(df, IsIn(c1, s1)), IsIn(c2, s2)) == Where(Where(df, IsIn(c2, s2)), IsIn(c1, s1))
  {
    WhereCompose(df, IsIn(c1, s1), IsIn(c2, s2), Both(c1, s1, c2, s2));
    WhereCompose(df, IsIn(c2, s2), IsIn(c1, s1), Both(c1, s1, c2, s2));
  }

  // ---------------------------------------------------------------------
  // Provider directory

  /** The city selectbox's first entry, meaning no city restriction. */
  const ALL: string := "All"

  /** (Provider_ID, Provider_Type, Location): the grouping of the provider summary. */
  type SummaryKey = (int, string, string)

  function SummaryKeyOf(l: Listing): SummaryKey { (l.providerId, l.providerType, l.location) }

  function InCity(city: string): Listing -> bool
  {
    (l: Listing) => l.location == city
  }

  /** The rows the summary reads: all of them, or WHERE Location = city. */
  function Scope(listings: seq<Listing>, city: string): (s: seq<Listing>)
    ensures forall x :: x in s <==> x in listings && (city == ALL || x.location == city)
    ensures forall x :: multiset(s)[x] == if city == ALL || x.location == city then multiset(listings)[x] else 0
    ensures IsSubsequence(s, listings)
    ensures city == ALL ==> s == listings
  {
    if city == ALL then SubsequenceOfItself(listings); listings
    else Where(listings, InCity(city))
  }

  /**
    Per provider, type and city: COUNT(Food_ID) and SUM(Quantity), largest
    total first. One row per triple that occurs in the chosen city, and the
    city filter does not change any row's figures, because the city is part
    of the grouping key.
  */
  function ProviderSummary(listings: seq<Listing>, city: string): (r: seq<Group<SummaryKey>>)
    ensures SortedDesc(r, ByTotal) && DistinctKeys(r)
    ensures forall k :: k in KeySet(r) <==> k in KeysOf(listings, SummaryKeyOf) && (city == ALL || k.2 == city)
    ensures forall i :: 0 <= i < |r| ==>
      r[i].count == CountOf(listings, SummaryKeyOf, Always, r[i].key) &&
      r[i].total == TotalOf(listings, SummaryKeyOf, Quantity, r[i].key)
    ensures SumCounts(r) == |Scope(listings, city)| && SumTotals(r) == TotalAll(Scope(listings, city), Quantity)
    ensures city == ALL ==> SumCounts(r) == |listings| && SumTotals(r) == TotalAll(listings, Quantity)
  {
    var scope := Scope(listings, city);
    var r := Aggregate(scope, SummaryKeyOf, Always, Quantity, ByTotal);
    CountAllAlways(scope);
    KeysOfMembers(scope, SummaryKeyOf);
    KeysOfMembers(listings, SummaryKeyOf);
    CountAllAlways(listings);
    forall i | 0 <= i < |r|
      ensures r[i].count == CountOf(listings, SummaryKeyOf, Always, r[i].key)
      ensures r[i].total == TotalOf(listings, SummaryKeyOf, Quantity, r[i].key)
    {
      if city != ALL {
        InKeySet(r, i);
        WhereKeepsGroup(listings, InCity(city), SummaryKeyOf, Always, Quantity, r[i].key);
      }
    }
    r
  }

  // ---------------------------------------------------------------------
  // Receiver directory

  /** The warning shown when receivers or claims is not a table of the database. */
  datatype DirectoryError = TablesMissing

  /** (Receiver_ID, Name, Type, City): the grouping of the receiver directory. */
  type ReceiverKey = (int, string, string, string)

  function KeyOfReceiver(r: Receiver): ReceiverKey { (r.receiverId, r.name, r.receiverType, r.city) }

  function ReceiverRowKey(row: (Receiver, Option<Claim>)): ReceiverKey { KeyOfReceiver(row.0) }

  function ReceiverInCity(city: string): ((Receiver, Option<Claim>)) -> bool
  {
    (row: (Receiver, Option<Claim>)) => row.0.city == city
  }

  /** The joined rows the directory groups: WHERE r.City = city, unless city is ALL. */
  function DirectoryRows(receivers: seq<Receiver>, claims: seq<Claim>, city: string): seq<(Receiver, Option<Claim>)>
  {
    var j := LeftJoin(receivers, claims, ClaimedBy);
    if city == ALL then j else Where(j, ReceiverInCity(city))
  }

  /**
    receivers LEFT JOIN claims, grouped per receiver, COUNT(cl.Claim_ID),
    most claims first; an error when either table is missing.
  */
  function ReceiverDirectory(hasReceivers: bool, hasClaims: bool, receivers: seq<Receiver>, claims: seq<Claim>, city: string)
    : (res: Result<seq<Group<ReceiverKey>>, DirectoryError>)
    ensures res.Err? <==> !(hasReceivers && hasClaims)
    ensures res.Ok? ==> SortedDesc(res.value, ByCount) && DistinctKeys(res.value)
    ensures res.Ok? ==> forall k :: k in KeySet(res.value) <==>
      k in KeysOf(receivers, KeyOfReceiver) && (city == ALL || k.3 == city)
    ensures res.Ok? ==> forall i :: 0 <= i < |res.value| ==>
      res.value[i].count == MatchCount(receivers, claims, ClaimedBy, KeyOfReceiver, res.value[i].key)
  {
    if !(hasReceivers && hasClaims) then Err(TablesMissing)
    else
      var j := LeftJoin(receivers, claims, ClaimedBy);
      var rows := DirectoryRows(receivers, claims, city);
      var r := Aggregate(rows, ReceiverRowKey, Present, NoAmount, ByCount);
      DirectoryKeys(receivers, claims, city);
      forall i | 0 <= i < |r|
        ensures r[i].count == MatchCount(receivers, claims, ClaimedBy, KeyOfReceiver, r[i].key)
      {
        if city != ALL {
          InKeySet(r, i);
          KeysOfMembers(rows, ReceiverRowKey);
          WhereKeepsGroup(j, ReceiverInCity(city), ReceiverRowKey, Present, NoAmount, r[i].key);
        }
        LeftJoinCount(receivers, claims, ClaimedBy, KeyOfReceiver, ReceiverRowKey, r[i].key);
      }
      Ok(r)
  }

  /** Every receiver in the chosen city keeps a row, with or without claims. */
  lemma DirectoryKeys(receivers: seq<Receiver>, claims: seq<Claim>, city: string)
    ensures forall k :: k in KeysOf(DirectoryRows(receivers, claims, city), ReceiverRowKey) <==>
      k in KeysOf(receivers, KeyOfReceiver) && (city == ALL || k.3 == city)
  {
    var j := LeftJoin(receivers, claims, ClaimedBy);
    LeftJoinKeys(receivers, claims, ClaimedBy, KeyOfReceiver, ReceiverRowKey);
    KeysOfMembers(DirectoryRows(receivers, claims, city), ReceiverRowKey);
    KeysOfMembers(j, ReceiverRowKey);
  }

  /**
    With distinct Receiver_IDs, each receiver of the chosen city has its
    own row whose count is the number of claims carrying its id, zero for
    a receiver that never claimed.
  */
  lemma DirectoryCountsClaims(receivers: seq<Receiver>, claims: seq<Claim>, city: string, i: nat)
    requires ReceiverIdsDistinct(receivers)
    requires i < |receivers| && (city == ALL || receivers[i].city == city)
    ensures var res := ReceiverDirectory(true, true, receivers, claims, city);
      exists p :: 0 <= p < |res.value| && res.value[p].key == KeyOfReceiver(receivers[i]) &&
        res.value[p].count == |Matching(receivers[i], claims, ClaimedBy)|
  {
    var res := ReceiverDirectory(true, true, receivers, claims, city);
    var k := KeyOfReceiver(receivers[i]);
    assert k in KeysOf(receivers, KeyOfReceiver);
    assert k in KeySet(res.value);
    var p :| 0 <= p < |res.value| && res.value[p].key == k;
    MatchCountUnique(receivers, claims, ClaimedBy, KeyOfReceiver, i);
  }
}
