# Food listings store and reports of the food wastage dashboard

A Dafny model of the data layer of the food wastage management dashboard
(`app.py`): the SQLite table `food_listings` that the CRUD page writes, the
read-only tables `providers`, `receivers` and `claims`, the figures the
dashboard computes from them, and the fifteen fixed SQL reports.

- `results.dfy`: `Option` and `Result`.
- `relational.dfy`: a small relational algebra over sequences of rows:
  WHERE, inner and left joins, GROUP BY with COUNT and SUM, ORDER BY ... DESC
  (proved sorted and a permutation of the groups), LIMIT, and lemmas that say
  what a COUNT or SUM over a join adds up to.
- `dates.dfy`: the `YYYY-MM-DD` text the listing form stores as
  Expiry_Date, with its parse round trip and the fact that text order is
  date order.
- `tables.dfy`: the rows of the four tables and the join conditions.
- `listing_store.dfy`: `FoodListings`, a class holding the rows and the
  AUTOINCREMENT counter, with INSERT, both forms of UPDATE and DELETE.
- `dashboard.dfy`: the KPI cards, the three multiselect filters, the
  provider summary and the receiver directory.
- `reports.dfy`: the fifteen reports.

SQL semantics the model follows: GROUP BY returns groups in no particular
order, so a report without ORDER BY promises none, and one with ORDER BY
... DESC promises non-increasing values, never an order among ties.
COUNT(column) counts the rows where the column is not NULL, so over a LEFT
JOIN it counts the rows that found a partner. A left row without partners
keeps its group with count 0. SUM over no rows is NULL.

On these points the model follows what app.py does:

- Report 4 compares City with the fixed literal 'New Jessica'. It takes no
  city parameter.
- Reports 1 and 2 count rows per city (COUNT(*)), not distinct ids.
- UPDATE and DELETE with an id no row has change nothing. They do not
  fail with a not-found error.
- A quantity below 1 is never checked by the code. The number inputs start
  at 1, so a quantity of at least 1 is a precondition of Insert and Update,
  not an error result.
- Only the receiver directory checks that its tables exist. The reports do
  not check.
- Report 7 uses an inner join, like reports 10 and 12 to 15.

## Model

| member | source | states |
|---|---|---|
| Relational.Where | app.py:110-112 | keeps exactly the rows meeting the condition, each as often as in the input, in their original order (a subsequence) |
| Relational.InnerJoin | app.py:376 | a pair is in the join iff its left row is in the left table, its right row in the right table, and the condition holds |
| Relational.InnerJoinCopies | app.py:376 | a pair meeting the condition occurs once per pair of source rows (copies of the left row times copies of the right), any other pair not at all |
| Relational.LeftJoin | app.py:360 | a matched pair is in the join iff it meets the condition; a left row appears with NULL iff it has no partner |
| Relational.GroupBy | app.py:416 | one group per key that occurs, with that key's COUNT and SUM; counts and sums over all groups equal those of the whole table |
| Relational.SortDesc | app.py:172 | the groups in non-increasing order of the measure, as a permutation of the input |
| Relational.Aggregate | app.py:171-172 | GROUP BY then ORDER BY DESC: sorted, distinct keys, exactly the occurring keys, each row carrying its key's COUNT and SUM |
| Relational.Limit | app.py:363 | the first n rows, or all when there are fewer |
| Relational.Top | app.py:361-363 | at most n groups, sorted, with their own aggregates, and no group left out has a larger value than one returned |
| Relational.Best | app.py:376-379 | GROUP BY ORDER BY COUNT(*) DESC LIMIT 1: no row iff no input; otherwise one occurring key with its COUNT, and no key has a larger COUNT |
| Relational.WhereCompose | app.py:110-112 | filtering twice is filtering once by the conjunction |
| Relational.WhereKeepsGroup | app.py:184-185 | a WHERE that keeps every row of a group leaves its COUNT and SUM unchanged |
| Relational.LeftJoinKeys | app.py:360-361 | grouping a left join by a left-row key yields every key of the left table |
| Relational.LeftJoinCount | app.py:358-360 | COUNT of the right column per left key is the number of partners of the left rows of that key, 0 without partners |
| Relational.InnerJoinCount | app.py:430-432 | COUNT per left key over an inner join is the same number of partners |
| Relational.InnerJoinTotal | app.py:440-442 | SUM of a right column per left key over an inner join is the partners' summed amounts |
| Relational.MatchCountUnique | app.py:219-221 | when left keys are distinct, a key's count is the partners of its single row |
| Relational.MatchCountTwo | app.py:361 | two left rows with the same key are merged: the key's count covers the partners of both |
| Relational.InnerJoinSize | app.py:451 | when each left row has at most one partner, the inner join has one row per left row that has a partner |
| Relational.KeysOfInjective | app.py:395 | distinct keys on distinct rows give one group per row |
| Relational.CountOfPositive | app.py:416 | COUNT(*) of a key is positive exactly when the key occurs |
| Dates.Iso | app.py:261 | the strftime form is ten characters: four, two and two digits separated by dashes |
| Dates.ParseIso | app.py:22 | reading the text back yields only valid dates |
| Dates.IsoRoundTrip | app.py:261 | reading the stored text gives back the date written |
| Dates.IsoCanonical | app.py:261 | a text that reads as a date with a four-digit year is exactly that date's stored form |
| Dates.IsoOrder | app.py:22 | the TEXT order of two stored dates is their chronological order |
| ListingStore.NewListing | app.py:258-261 | the inserted row carries the given id and the form's eight fields, its expiry text reading back as the chosen date |
| ListingStore.UpdateRows | app.py:283-287 | matching rows get the new quantity, and the new city only when it is non-empty; other rows and other columns unchanged; no match changes nothing |
| ListingStore.DeleteRows | app.py:297 | the remaining rows are exactly those with another id, in order; no match changes nothing |
| ListingStore.DeleteIncreasing | app.py:19 | deleting keeps the ids increasing and removes at most one row |
| ListingStore.DeleteIdempotent | app.py:297 | deleting the same id twice is deleting once |
| ListingStore.DeleteSuffix | app.py:19 | deleting the id of a just-inserted row, which no older row has, restores the earlier rows |
| ListingStore.FoodListings.constructor | app.py:17-28 | a freshly created table with no rows and counter 0 |
| ListingStore.FoodListings.Open | app.py:17-28 | opening an existing table keeps its rows and counter |
| ListingStore.FoodListings.All | app.py:266 | SELECT * returns the rows in increasing Food_ID order |
| ListingStore.FoodListings.Insert | app.py:257-261 | appends one row with id one above the counter, above every id ever issued; the total quantity grows by the quantity; a full table returns an error and changes nothing |
| ListingStore.FoodListings.Update | app.py:282-287 | the rows become UpdateRows of the old rows; ids and counter unchanged; quantities stay at least 1 |
| ListingStore.FoodListings.Delete | app.py:296-297 | the rows become DeleteRows of the old rows; the counter is kept, so ids are never reused |
| Dashboard.Metrics | app.py:90-96 | no cards for an empty table; otherwise row count, summed quantity, distinct providers and cities, each between 1 and the row count |
| Dashboard.QuantityCoversListings | app.py:93-94 | when every quantity is at least 1, Total Quantity is at least Total Listings |
| Dashboard.Filtered | app.py:110-112 | exactly the rows every active filter admits, in order; no selection keeps everything |
| Dashboard.ApplyFilters | app.py:110-112 | the three successive isin filters give the single combined filter |
| Dashboard.FiltersCommute | app.py:110-112 | two filters applied in either order give the same rows |
| Dashboard.Scope | app.py:184 | the table itself for "All", otherwise the rows of the chosen city, each as often as in the table, as a subsequence |
| Dashboard.ProviderSummary | app.py:162-188 | one row per (provider, type, city) in the chosen city, sorted by total, each with its listing count and quantity over the whole table; the figures add up to the row count and quantity of the chosen city (of the whole table for "All") |
| Dashboard.ReceiverDirectory | app.py:198-227 | an error exactly when receivers or claims is missing; otherwise a row per receiver of the city, sorted, counting the claims with its id |
| Dashboard.DirectoryKeys | app.py:214-225 | every receiver of the chosen city has a row, with or without claims |
| Dashboard.DirectoryCountsClaims | app.py:214-225 | with distinct Receiver_IDs, each receiver's row counts exactly the claims carrying its id |
| Reports.ProvidersPerCity | app.py:326-331 | a row per city with its number of providers, most first, adding up to all providers |
| Reports.ReceiversPerCity | app.py:334-339 | a row per city with its number of receivers, most first, adding up to all receivers |
| Reports.ProviderTypeTotals | app.py:342-347 | a row per provider type with its summed quantity, largest first, adding up to all the quantity |
| Reports.FoodTypeCounts | app.py:383-388 | a row per food type with its number of listings, most first, adding up to all listings |
| Reports.ProviderContacts | app.py:350-354 | one name, city and contact row per provider in New Jessica: each row occurs as often as such providers carry it |
| Reports.TopReceivers | app.py:357-364 | at most ten (name, city) groups, sorted, each counting the claims of its receivers (0 included), none left out with more |
| Reports.TopReceiversMerge | app.py:361 | two receivers with one name in one city share a row counting both's claims |
| Reports.TotalQuantity | app.py:367-370 | NULL for an empty table, otherwise the summed quantity |
| Reports.TotalQuantityAgrees | app.py:367-370 | the total equals the sum of report 3 and the dashboard's Total Quantity card, and is at least the row count when quantities are at least 1 |
| Reports.CityMostListings | app.py:373-380 | at most one city, none when no listing has a registered provider, and no city has more listings |
| Reports.CityListingsCounted | app.py:376 | with distinct Provider_IDs, the join has one row per listing whose provider is registered |
| Reports.ClaimsPerFood | app.py:391-397 | a row for every listing key, sorted, counting the claims on it, 0 for unclaimed food |
| Reports.ClaimsPerFoodEachListing | app.py:392-395 | with distinct Food_IDs, one row per listing, counting the claims on that listing |
| Reports.LeftJoinKeepsUnclaimed | app.py:394 | an inner join gives the same counts but keeps only the keys with a positive count |
| Reports.SuccessfulDeliveries | app.py:402-405 | exactly the successful claims joined with their listing and the listing's provider, each triple once per combination of the three source rows |
| Reports.ProviderMostSuccessful | app.py:400-409 | at most one provider name, none without successful claims, and no name has more successful claims |
| Reports.StatusDistribution | app.py:412-417 | one row per occurring status with its claim count out of all claims; no rows for no claims; counts add up to all claims |
| Reports.PercentagesTotal | app.py:414 | before rounding, the percentages add up to 100 |
| Reports.ClaimedRows | app.py:422-424 | exactly the claims joined with their receiver and their listing, each triple once per combination of the three source rows |
| Reports.ClaimedQuantityPerReceiver | app.py:420-426 | a row per receiver name with at least one claimed listing, its count and summed quantity, so the average is defined |
| Reports.MostClaimedMealType | app.py:429-436 | at most one meal type, none when no claim meets a listing, with the claims on that meal type, and no meal type has more |
| Reports.TotalDonatedPerProvider | app.py:439-445 | a row per provider name that has listings, sorted, summing the quantities of every provider with that name |
| Reports.ClaimsPerCity | app.py:448-454 | a row per city of a receiver some claim refers to, sorted, adding up to the joined claims |
| Reports.ClaimsPerCityTotal | app.py:450-451 | with distinct Receiver_IDs, the counts add up to the claims whose receiver is registered |

## Left out

- The Streamlit pages, widgets, messages, the sidebar and navigation: presentation only. The model takes the chosen city, the selections and the form values as parameters.
- The charts of the dashboard, the Analytics page and the reports page (app.py:117-124, 138-144, 466-471), including the pandas group-bys that only feed charts.
- The connection, commit and thread settings of SQLite (app.py:13-14, 44-51): each write is one method call that takes effect at once.
- The contacts table (app.py:31-42), the Contacts page (app.py:301-311), the empty Claims page (app.py:312-314) and the Settings page.
- The option lists of the select boxes (app.py:158-160, 207-209, 276-277, 292-293) and the report dropdown (app.py:458-463): the chosen value is a parameter.
- Reports.StatusDistribution: ROUND(..., 2) and floating-point division are not modelled; the exact percentage is a real number.
- Reports.ClaimedQuantityPerReceiver: AVG is given as the count and the sum whose quotient it is, not as a float.
- NULL values in the seeded tables: every column is modelled as present, so SUM and COUNT never skip a NULL.
- SQLite's 64-bit overflow in SUM and pandas' int64 sums: integers are unbounded.
- Errors from reports over missing tables: only the receiver directory checks, and only it is modelled with an error.
- ListingStore.FoodListings.Insert: requires a four-digit year, since strftime does not pad years below 1000 on the C library; the date widget offers dates ten years around today.
- Row order of SELECT * is modelled as increasing Food_ID, the order a rowid table scan gives.
- A listing whose Location is literally "All" cannot be chosen alone in the provider directory: "All" always means every city. The model keeps this.
