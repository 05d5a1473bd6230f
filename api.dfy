/** The read-side HTTP handlers (CityStreamApiApplication). The items a scan
    or query returns are parameters; each handler folds them into its
    response. Any exception a handler meets is answered with a 500. */
module CityStreamApi {
  import opened Wrappers
  import opened Text
  import opened Values
  import opened JavaInt
  import opened Sorting
  import opened ApiItems

  /** `ResponseEntity.internalServerError()`: a handler caught an exception. */
  datatype ApiError = InternalServerError

  // ---------------------------------------------------------------------
  // itemToMap

  /** The item's non-null attributes, unchanged. */
  function Attributes(item: Item): Item
  {
    map k | k in item && item[k] != Null :: item[k]
  }

  /** `itemToMap`: copies every non-null attribute and omits the null ones. */
  method ItemToMap(item: Item) returns (m: Item)
    ensures forall k :: k in m <==> k in item && item[k] != Null
    ensures forall k :: k in m ==> m[k] == item[k]
    ensures m == Attributes(item)
  {
    m := map[];
    var rest := item.Keys;
    while rest != {}
      invariant rest <= item.Keys
      invariant forall k :: k in m <==> k in item && k !in rest && item[k] != Null
      invariant forall k :: k in m ==> m[k] == item[k]
      decreases rest
    {
      var k :| k in rest;
      if item[k] != Null {
        m := m[k := item[k]];
      }
      rest := rest - {k};
    }
  }

  /** `.map(this::itemToMap)` */
  function AllAttributes(items: seq<Item>): (ms: seq<Item>)
    ensures |ms| == |items|
    ensures forall i :: 0 <= i < |items| ==> ms[i] == Attributes(items[i])
  {
    seq(|items|, i requires 0 <= i < |items| => Attributes(items[i]))
  }

  // ---------------------------------------------------------------------
  // Newest-first sorting by a string attribute

  /** The string compared by the comparator, "" when absent (the comparator
      is never asked about such an item, see SortNewestFirst). */
  function SortText(m: Item, field: string): string
  {
    var t := TextOf(m, field); if t.Some? then t.value else ""
  }

  /** `(a, b) -> b.get(field).compareTo(a.get(field))`: the later text first. */
  function NewestFirst(field: string): (Item, Item) -> bool
  {
    (a: Item, b: Item) => LexLeq(SortText(b, field), SortText(a, field))
  }

  lemma NewestFirstIsPreorder(field: string)
    ensures TotalPreorder(NewestFirst(field))
  {
    var le := NewestFirst(field);
    forall a, b ensures le(a, b) || le(b, a) {
      LexLeqTotal(SortText(a, field), SortText(b, field));
    }
    forall a, b, c | le(a, b) && le(b, c) ensures le(a, c) {
      LexLeqTransitive(SortText(c, field), SortText(b, field), SortText(a, field));
    }
  }

  /** Every item holds a string under `field`. */
  predicate AllHaveText(ms: seq<Item>, field: string)
  {
    forall i :: 0 <= i < |ms| ==> TextOf(ms[i], field).Some?
  }

  /** Descending by the string under `field`. */
  predicate NewestFirstOrder(ms: seq<Item>, field: string)
  {
    forall i, j :: 0 <= i < j < |ms| ==> LexLeq(SortText(ms[j], field), SortText(ms[i], field))
  }

  /** Sorting by a string attribute, later first. With two or more items
      every item is compared, and one without a string under `field` makes
      the comparator throw (a null or a cast failure). */
  function SortNewestFirst(ms: seq<Item>, field: string): (r: Result<seq<Item>, ApiError>)
    ensures r.Ok? <==> |ms| < 2 || AllHaveText(ms, field)
    ensures r.Ok? ==> multiset(r.value) == multiset(ms) && NewestFirstOrder(r.value, field)
  {
    if 2 <= |ms| && !AllHaveText(ms, field) then Err(InternalServerError)
    else
      NewestFirstIsPreorder(field);
      var sorted := Sort(ms, NewestFirst(field));
      assert SortedBy(sorted, NewestFirst(field));
      Ok(sorted)
  }

  /** `stream(items).limit(limit).map(this::itemToMap).sorted(newest first)`:
      the first `limit` items in scan order, then sorted. A negative limit
      makes `limit` throw. */
  function FirstThenSorted(scanned: seq<Item>, limit: int, field: string): (r: Result<seq<Item>, ApiError>)
    ensures var n := if limit < |scanned| then limit else |scanned|;
      r.Ok? <==> 0 <= limit && (n < 2 || AllHaveText(scanned[..n], field))
    ensures var n := if limit < |scanned| then limit else |scanned|;
      r.Ok? ==> |r.value| == n && multiset(r.value) == multiset(AllAttributes(scanned[..n]))
                && NewestFirstOrder(r.value, field)
  {
    if limit < 0 then Err(InternalServerError)
    else
      var n := if limit < |scanned| then limit else |scanned|;
      var firsts := AllAttributes(scanned[..n]);
      assert AllHaveText(firsts, field) <==> AllHaveText(scanned[..n], field) by {
        assert forall i :: 0 <= i < n ==> TextOf(firsts[i], field) == TextOf(scanned[..n][i], field);
      }
      var r := SortNewestFirst(firsts, field);
      if r.Ok? then
        assert |r.value| == |multiset(r.value)| == |multiset(firsts)| == n;
        r
      else r
  }

  // ---------------------------------------------------------------------
  // GET /events/{city}

  datatype EventsResponse = EventsResponse(city: string, count: int, events: seq<Item>)

  /** `getEventsByCity`: at most `limit` events, the first ones scanned,
      newest first; `count` is the list's size. */
  function GetEventsByCity(city: string, scanned: seq<Item>, limit: int): (r: Result<EventsResponse, ApiError>)
    ensures var n := if limit < |scanned| then limit else |scanned|;
      r.Ok? <==> 0 <= limit && (n < 2 || AllHaveText(scanned[..n], "timestamp"))
    ensures var n := if limit < |scanned| then limit else |scanned|;
      r.Ok? ==> && r.value.city == city
                && r.value.count == |r.value.events| == n <= limit
                && multiset(r.value.events) == multiset(AllAttributes(scanned[..n]))
                && NewestFirstOrder(r.value.events, "timestamp")
  {
    var events :- FirstThenSorted(scanned, limit, "timestamp");
    Ok(EventsResponse(city, |events|, events))
  }

  // ---------------------------------------------------------------------
  // GET /aggregations

  datatype AggregationsResponse = AggregationsResponse(city: string, eventType: string, count: int, aggregations: seq<Item>)

  /** `getAggregations`: at most `limit` windows, the first ones scanned,
      latest `window_start` first. */
  function GetAggregations(city: string, eventType: string, scanned: seq<Item>, limit: int): (r: Result<AggregationsResponse, ApiError>)
    ensures var n := if limit < |scanned| then limit else |scanned|;
      r.Ok? <==> 0 <= limit && (n < 2 || AllHaveText(scanned[..n], "window_start"))
    ensures var n := if limit < |scanned| then limit else |scanned|;
      r.Ok? ==> && r.value.city == city && r.value.eventType == eventType
                && r.value.count == |r.value.aggregations| == n <= limit
                && multiset(r.value.aggregations) == multiset(AllAttributes(scanned[..n]))
                && NewestFirstOrder(r.value.aggregations, "window_start")
  {
    var aggregations :- FirstThenSorted(scanned, limit, "window_start");
    Ok(AggregationsResponse(city, eventType, |aggregations|, aggregations))
  }

  // ---------------------------------------------------------------------
  // GET /alerts

  datatype AlertsResponse = AlertsResponse(count: int, timeRangeHours: int, city: Option<string>, alerts: seq<Item>)

  /** `getAlerts`: every fetched alert, newest first; `city` is echoed
      exactly when the parameter was given. Which items the query or scan
      returns (city, cutoff, at most 50) is decided by the service. */
  function GetAlerts(city: Option<string>, hours: int, fetched: seq<Item>): (r: Result<AlertsResponse, ApiError>)
    ensures r.Ok? <==> |fetched| < 2 || AllHaveText(fetched, "timestamp")
    ensures r.Ok? ==> && r.value.count == |r.value.alerts| == |fetched|
                      && r.value.timeRangeHours == hours
                      && r.value.city == city
                      && multiset(r.value.alerts) == multiset(AllAttributes(fetched))
                      && NewestFirstOrder(r.value.alerts, "timestamp")
  {
    var all := AllAttributes(fetched);
    assert AllHaveText(all, "timestamp") <==> AllHaveText(fetched, "timestamp") by {
      assert forall i :: 0 <= i < |fetched| ==> TextOf(all[i], "timestamp") == TextOf(fetched[i], "timestamp");
    }
    var alerts :- SortNewestFirst(all, "timestamp");
    assert |alerts| == |multiset(alerts)| == |multiset(all)| == |fetched|;
    Ok(AlertsResponse(|alerts|, hours, city, alerts))
  }

  // ---------------------------------------------------------------------
  // Per-key sums: the loops of getSummary and getCities

  /** `counts.put(key, counts.getOrDefault(key, 0) + n)` and `total += n`. */
  function AddCount(counts: map<Option<string>, int>, total: int, key: Option<string>, n: int): (map<Option<string>, int>, int)
  {
    (counts[key := Wrap32((if key in counts then counts[key] else 0) + n)], Wrap32(total + n))
  }

  /** The per-key sums and the total the loop of SumByAttribute builds, item
      by item. */
  function Tally(items: seq<Item>, field: string): (map<Option<string>, int>, int)
  {
    if |items| == 0 then (map[], 0)
    else
      var t := Tally(items[..|items| - 1], field);
      AddCount(t.0, t.1, TextOf(items[|items| - 1], field), Count(items[|items| - 1]))
  }

  /** `counts` has an entry for every value `field` reads as and no other,
      each the sum of that value's items as a Java int. */
  ghost predicate SumsPerKey(items: seq<Item>, field: string, counts: map<Option<string>, int>)
  {
    && counts.Keys == ValueSet(items, field)
    && (forall v :: v in counts ==> counts[v] == Wrap32(GroupSum(items, field, v)))
  }

  /** The running total is the sum of all counts, as a Java int. */
  lemma {:induction false} TallyTotal(items: seq<Item>, field: string)
    ensures Tally(items, field).1 == Wrap32(CountSum(items))
  {
    if |items| != 0 {
      var prefix, last := items[..|items| - 1], items[|items| - 1];
      var t := Tally(prefix, field);
      assert Tally(items, field).1 == Wrap32(t.1 + Count(last));
      assert CountSum(items) == CountSum(prefix) + Count(last);
      TallyTotal(prefix, field);
      WrapAddLeft(CountSum(prefix), Count(last));
    }
  }

  /** The map has a key for every value read and no other. */
  lemma {:induction false} TallyKeys(items: seq<Item>, field: string)
    ensures Tally(items, field).0.Keys == ValueSet(items, field)
  {
    if |items| != 0 {
      TallyKeys(items[..|items| - 1], field);
    }
  }

  /** Every entry is the sum of its key's items. */
  lemma {:induction false} TallyEntries(items: seq<Item>, field: string)
    ensures forall v :: v in Tally(items, field).0 ==> Tally(items, field).0[v] == Wrap32(GroupSum(items, field, v))
  {
    if |items| != 0 {
      var prefix, last := items[..|items| - 1], items[|items| - 1];
      var counts, key := Tally(prefix, field).0, TextOf(last, field);
      var before := if key in counts then counts[key] else 0;
      var counts' := Tally(items, field).0;
      assert counts' == counts[key := Wrap32(before + Count(last))];
      TallyEntries(prefix, field);
      forall v | v in counts' ensures counts'[v] == Wrap32(GroupSum(items, field, v)) {
        if v == key {
          if key !in counts {
            TallyKeys(prefix, field);
            AbsentValue(prefix, field, key);
          }
          assert GroupSum(items, field, v) == GroupSum(prefix, field, v) + Count(last);
          WrapAddLeft(GroupSum(prefix, field, key), Count(last));
        } else {
          assert GroupSum(items, field, v) == GroupSum(prefix, field, v);
        }
      }
    }
  }

  lemma TallyIsSumsPerKey(items: seq<Item>, field: string)
    ensures SumsPerKey(items, field, Tally(items, field).0)
  {
    TallyKeys(items, field);
    TallyEntries(items, field);
  }

  /** The sums after the next item of a scan. */
  lemma TallyNext(items: seq<Item>, i: int, field: string)
    requires 0 <= i < |items|
    ensures Tally(items[..i + 1], field) ==
      AddCount(Tally(items[..i], field).0, Tally(items[..i], field).1, TextOf(items[i], field), Count(items[i]))
  {
    assert items[..i + 1][..i] == items[..i];
  }

  /** `for (Item item : items) counts.put(key, counts.getOrDefault(key, 0) + count)`,
      with the running total of getSummary alongside; `getInt` throws on an
      item without `event_count`. Java's int additions wrap. */
  method SumByAttribute(items: seq<Item>, field: string) returns (r: Result<(map<Option<string>, int>, int), ApiError>)
    ensures r.Ok? <==> AllCounted(items)
    ensures r.Ok? ==> r.value == Tally(items, field)
  {
    var counts: map<Option<string>, int> := map[];
    var total := 0;
    var i := 0;
    while i < |items|
      invariant 0 <= i <= |items|
      invariant AllCounted(items[..i])
      invariant (counts, total) == Tally(items[..i], field)
    {
      var item := items[i];
      var key := TextOf(item, field);
      var count := IntOf(item, EventCount);
      if count.None? {
        assert !AllCounted(items) by { assert !IntOf(items[i], EventCount).Some?; }
        return Err(InternalServerError);
      }
      assert count.value == Count(item);
      TallyNext(items, i, field);
      CountedNext(items, i);
      counts, total := AddCount(counts, total, key, count.value).0, AddCount(counts, total, key, count.value).1;
      i := i + 1;
    }
    assert items[..i] == items;
    r := Ok((counts, total));
  }

  // ---------------------------------------------------------------------
  // GET /summary/{city}

  datatype SummaryResponse = SummaryResponse(city: string, totalEvents: int, eventTypeBreakdown: map<Option<string>, int>)

  /** `getSummary`: the total of the items' event counts and, per event
      type, the total of that type's items. */
  method GetSummary(city: string, items: seq<Item>) returns (r: Result<SummaryResponse, ApiError>)
    ensures r.Ok? <==> AllCounted(items)
    ensures r.Ok? ==> && r.value.city == city
                      && r.value.totalEvents == Wrap32(CountSum(items))
                      && (forall t :: t in r.value.eventTypeBreakdown <==>
                            exists i :: 0 <= i < |items| && TextOf(items[i], "event_type") == t)
                      && (forall t :: t in r.value.eventTypeBreakdown ==>
                            r.value.eventTypeBreakdown[t] == Wrap32(GroupSum(items, "event_type", t)))
  {
    var sums :- SumByAttribute(items, "event_type");
    TallyTotal(items, "event_type");
    TallyIsSumsPerKey(items, "event_type");
    ValuesAreRead(items, "event_type");
    r := Ok(SummaryResponse(city, sums.1, sums.0));
  }

  /** The breakdown adds up to the total: summing its entries over the
      distinct types gives `total_events` (both as Java ints). */
  lemma BreakdownAddsUpToTotal(items: seq<Item>)
    ensures Wrap32(SumOfWrappedGroups(DistinctValues(items, "event_type"), items, "event_type")) == Wrap32(CountSum(items))
  {
    WrappedGroupsAgree(DistinctValues(items, "event_type"), items, "event_type");
    GroupsPartitionTotal(items, "event_type");
  }

  // ---------------------------------------------------------------------
  // GET /cities

  datatype CityTotal = CityTotal(city: string, totalEvents: int)

  datatype CitiesResponse = CitiesResponse(count: int, cities: seq<CityTotal>)

  /** `es` lists every entry of `m` once. */
  ghost predicate ListsMap(es: seq<(Option<string>, int)>, m: map<Option<string>, int>)
  {
    && |es| == |m|
    && (forall i, j :: 0 <= i < j < |es| ==> es[i].0 != es[j].0)
    && (forall i :: 0 <= i < |es| ==> es[i].0 in m && es[i].1 == m[es[i].0])
    && (forall k :: k in m ==> exists i :: 0 <= i < |es| && es[i].0 == k)
  }

  /** `cityCounts.entrySet().stream()`: every entry once, in the map's own
      (unspecified) order. */
  method Entries(m: map<Option<string>, int>) returns (es: seq<(Option<string>, int)>)
    ensures ListsMap(es, m)
  {
    es := [];
    var rest := m.Keys;
    while rest != {}
      invariant rest <= m.Keys
      invariant |es| + |rest| == |m|
      invariant forall i, j :: 0 <= i < j < |es| ==> es[i].0 != es[j].0
      invariant forall i :: 0 <= i < |es| ==> es[i].0 in m && es[i].0 !in rest && es[i].1 == m[es[i].0]
      invariant forall k :: k in m && k !in rest ==> exists i :: 0 <= i < |es| && es[i].0 == k
      decreases rest
    {
      var k :| k in rest;
      ghost var before := es;
      es := es + [(k, m[k])];
      assert es[|before|].0 == k;
      assert forall i :: 0 <= i < |before| ==> es[i] == before[i];
      rest := rest - {k};
    }
  }

  /** `(a, b) -> b.total_events.compareTo(a.total_events)`: the larger first. */
  function LargestFirst(): (le: (CityTotal, CityTotal) -> bool)
    ensures TotalPreorder(le)
    ensures forall a, b :: le(a, b) <==> b.totalEvents <= a.totalEvents
  {
    (a: CityTotal, b: CityTotal) => b.totalEvents <= a.totalEvents
  }

  /** The entry `getCities` reports for a city: its name and the total of
      its items' event counts. */
  ghost predicate IsCityTotal(items: seq<Item>, ct: CityTotal)
  {
    && Some(ct.city) in ValueSet(items, "city")
    && ct.totalEvents == Wrap32(GroupSum(items, "city", Some(ct.city)))
  }

  /** `Map.of("city", entry.getKey(), "total_events", entry.getValue())` per entry. */
  function CityTotals(entries: seq<(Option<string>, int)>): (ts: seq<CityTotal>)
    requires forall i :: 0 <= i < |entries| ==> entries[i].0.Some?
    ensures |ts| == |entries|
    ensures forall i :: 0 <= i < |entries| ==> ts[i] == CityTotal(entries[i].0.value, entries[i].1)
  {
    seq(|entries|, i requires 0 <= i < |entries| => CityTotal(entries[i].0.value, entries[i].1))
  }

  /** An entry for the null city comes from an item without a city. */
  lemma NullCityEntry(items: seq<Item>, counts: map<Option<string>, int>, entries: seq<(Option<string>, int)>, i: int)
    requires SumsPerKey(items, "city", counts) && ListsMap(entries, counts)
    requires 0 <= i < |entries| && entries[i].0.None?
    ensures exists j :: 0 <= j < |items| && TextOf(items[j], "city").None?
  {
    ValuesAreRead(items, "city");
    assert None in ValueSet(items, "city");
  }

  /** With no null entry, every item has a city. */
  lemma EveryItemHasCity(items: seq<Item>, counts: map<Option<string>, int>, entries: seq<(Option<string>, int)>)
    requires counts.Keys == ValueSet(items, "city") && ListsMap(entries, counts)
    requires forall i :: 0 <= i < |entries| ==> entries[i].0.Some?
    ensures forall j :: 0 <= j < |items| ==> TextOf(items[j], "city").Some?
  {
    ValuesAreRead(items, "city");
    forall j | 0 <= j < |items| ensures TextOf(items[j], "city").Some? {
      assert TextOf(items[j], "city") in counts;
      var i :| 0 <= i < |entries| && entries[i].0 == TextOf(items[j], "city");
    }
  }

  /** The entries are exactly the cities' totals. */
  lemma EntriesAreCityTotals(items: seq<Item>, counts: map<Option<string>, int>, entries: seq<(Option<string>, int)>)
    requires SumsPerKey(items, "city", counts) && ListsMap(entries, counts)
    requires forall i :: 0 <= i < |entries| ==> entries[i].0.Some?
    ensures forall ct :: ct in CityTotals(entries) <==> IsCityTotal(items, ct)
  {
    var totals := CityTotals(entries);
    forall ct | ct in totals ensures IsCityTotal(items, ct) {
      var i :| 0 <= i < |totals| && totals[i] == ct;
      assert entries[i].0 == Some(ct.city) && entries[i].0 in counts;
    }
    forall ct | IsCityTotal(items, ct) ensures ct in totals {
      assert Some(ct.city) in counts;
      var i :| 0 <= i < |entries| && entries[i].0 == Some(ct.city);
      assert totals[i] == ct;
    }
  }

  /** Entries with distinct keys give totals with distinct cities. */
  lemma CityTotalsDistinct(entries: seq<(Option<string>, int)>)
    requires forall i, j :: 0 <= i < j < |entries| ==> entries[i].0 != entries[j].0
    requires forall i :: 0 <= i < |entries| ==> entries[i].0.Some?
    ensures Distinct(CityTotals(entries))
    ensures forall i, j :: 0 <= i < |entries| && 0 <= j < |entries| && CityTotals(entries)[i].city == CityTotals(entries)[j].city ==> i == j
  {
    var ts := CityTotals(entries);
    forall i, j | 0 <= i < |entries| && 0 <= j < |entries| && ts[i].city == ts[j].city ensures i == j {
      assert entries[i].0 == entries[j].0;
    }
  }

  /** Sorting the totals keeps the same entries, one per city. */
  lemma SortedCitiesDistinct(totals: seq<CityTotal>, cities: seq<CityTotal>)
    requires Distinct(totals) && multiset(totals) == multiset(cities)
    requires forall i, j :: 0 <= i < |totals| && 0 <= j < |totals| && totals[i].city == totals[j].city ==> i == j
    ensures forall i, j :: 0 <= i < j < |cities| ==> cities[i].city != cities[j].city
    ensures forall ct :: ct in cities <==> ct in totals
  {
    forall ct ensures ct in cities <==> ct in totals {
      assert ct in cities <==> ct in multiset(cities);
      assert ct in totals <==> ct in multiset(totals);
    }
    PermutationKeepsDistinct(totals, cities);
    forall i, j | 0 <= i < j < |cities| ensures cities[i].city != cities[j].city {
      assert cities[i] in multiset(totals) && cities[j] in multiset(totals);
    }
  }

  /** `getCities`: one entry per distinct city with the total of its event
      counts, largest first; `count` is the number of cities. An item
      without a city reaches `Map.of` with a null and throws. */
  method GetCities(items: seq<Item>) returns (r: Result<CitiesResponse, ApiError>)
    ensures r.Ok? <==> AllCounted(items) && forall i :: 0 <= i < |items| ==> TextOf(items[i], "city").Some?
    ensures r.Ok? ==> && AllCounted(items)
                      && r.value.count == |r.value.cities| == |ValueSet(items, "city")|
                      && (forall ct :: ct in r.value.cities <==> IsCityTotal(items, ct))
                      && (forall i, j :: 0 <= i < j < |r.value.cities| ==> r.value.cities[i].city != r.value.cities[j].city)
                      && (forall i, j :: 0 <= i < j < |r.value.cities| ==>
                            r.value.cities[j].totalEvents <= r.value.cities[i].totalEvents)
  {
    var sums :- SumByAttribute(items, "city");
    TallyIsSumsPerKey(items, "city");
    var counts := sums.0;
    var entries := Entries(counts);
    if i :| 0 <= i < |entries| && entries[i].0.None? {
      NullCityEntry(items, counts, entries, i);
      return Err(InternalServerError);
    }
    EveryItemHasCity(items, counts, entries);
    var cities := Sort(CityTotals(entries), LargestFirst());
    SortedCityTotals(items, counts, entries, cities);
    r := Ok(CitiesResponse(|cities|, cities));
  }

  /** The sorted totals: one per city, each the city's total, largest first. */
  lemma SortedCityTotals(items: seq<Item>, counts: map<Option<string>, int>, entries: seq<(Option<string>, int)>,
                         cities: seq<CityTotal>)
    requires SumsPerKey(items, "city", counts) && ListsMap(entries, counts)
    requires forall i :: 0 <= i < |entries| ==> entries[i].0.Some?
    requires cities == Sort(CityTotals(entries), LargestFirst())
    ensures |cities| == |ValueSet(items, "city")|
    ensures forall ct :: ct in cities <==> IsCityTotal(items, ct)
    ensures forall i, j :: 0 <= i < j < |cities| ==> cities[i].city != cities[j].city
    ensures forall i, j :: 0 <= i < j < |cities| ==> cities[j].totalEvents <= cities[i].totalEvents
  {
    EntriesAreCityTotals(items, counts, entries);
    CityTotalsDistinct(entries);
    SortedTotals(CityTotals(entries), cities);
  }

  /** Sorting totals with one entry per city keeps them, one per city, and
      puts the largest first. */
  lemma SortedTotals(totals: seq<CityTotal>, cities: seq<CityTotal>)
    requires Distinct(totals)
    requires forall i, j :: 0 <= i < |totals| && 0 <= j < |totals| && totals[i].city == totals[j].city ==> i == j
    requires cities == Sort(totals, LargestFirst())
    ensures |cities| == |totals|
    ensures forall ct :: ct in cities <==> ct in totals
    ensures forall i, j :: 0 <= i < j < |cities| ==> cities[i].city != cities[j].city
    ensures forall i, j :: 0 <= i < j < |cities| ==> cities[j].totalEvents <= cities[i].totalEvents
  {
    assert SortedBy(cities, LargestFirst());
    SortedCitiesDistinct(totals, cities);
  }

  // ---------------------------------------------------------------------
  // GET /stats

  datatype StatsResponse = StatsResponse(totalEventsProcessed: int, highSeverityAlerts: int, criticalAlerts: int)

  const High: Option<string> := Some("high")
  const Critical: Option<string> := Some("critical")

  /** The `severityCounts` map the loop of getStats builds: "high" and
      "critical" start at 0, and each alert adds one to its severity. */
  function SeverityTally(alerts: seq<Item>): map<Option<string>, int>
  {
    if |alerts| == 0 then map[High := 0, Critical := 0]
    else
      var counts, key := SeverityTally(alerts[..|alerts| - 1]), TextOf(alerts[|alerts| - 1], "severity");
      counts[key := Wrap32((if key in counts then counts[key] else 0) + 1)]
  }

  /** The map has "high", "critical" and every severity read, and no other key. */
  lemma {:induction false} SeverityKeys(alerts: seq<Item>)
    ensures SeverityTally(alerts).Keys == {High, Critical} + ValueSet(alerts, "severity")
  {
    if |alerts| != 0 {
      SeverityKeys(alerts[..|alerts| - 1]);
    }
  }

  /** Every entry is the number of alerts with that severity, as a Java int. */
  lemma {:induction false} SeverityEntries(alerts: seq<Item>)
    ensures forall v :: v in SeverityTally(alerts) ==> SeverityTally(alerts)[v] == Wrap32(CountOf(alerts, "severity", v))
  {
    if |alerts| != 0 {
      var prefix, key := alerts[..|alerts| - 1], TextOf(alerts[|alerts| - 1], "severity");
      var counts := SeverityTally(prefix);
      var before := if key in counts then counts[key] else 0;
      var counts' := SeverityTally(alerts);
      assert counts' == counts[key := Wrap32(before + 1)];
      SeverityEntries(prefix);
      forall v | v in counts' ensures counts'[v] == Wrap32(CountOf(alerts, "severity", v)) {
        if v == key {
          if key !in counts {
            SeverityKeys(prefix);
            AbsentValue(prefix, "severity", key);
          }
          assert CountOf(alerts, "severity", v) == CountOf(prefix, "severity", v) + 1;
          WrapAddLeft(CountOf(prefix, "severity", key), 1);
        } else {
          assert CountOf(alerts, "severity", v) == CountOf(prefix, "severity", v);
        }
      }
    }
  }

  lemma SeverityTallyNext(alerts: seq<Item>, i: int)
    requires 0 <= i < |alerts|
    ensures SeverityTally(alerts[..i + 1]) ==
      var counts, key := SeverityTally(alerts[..i]), TextOf(alerts[i], "severity");
      counts[key := Wrap32((if key in counts then counts[key] else 0) + 1)]
  {
    assert alerts[..i + 1][..i] == alerts[..i];
  }

  /** `mapToInt(item -> item.getInt("event_count")).sum()`: Java int addition. */
  method SumCounts(items: seq<Item>) returns (r: Result<int, ApiError>)
    ensures r.Ok? <==> AllCounted(items)
    ensures r.Ok? ==> r.value == Wrap32(CountSum(items))
  {
    var sum := 0;
    var i := 0;
    while i < |items|
      invariant 0 <= i <= |items|
      invariant AllCounted(items[..i]) && sum == Wrap32(CountSum(items[..i]))
    {
      var count := IntOf(items[i], EventCount);
      if count.None? {
        assert !AllCounted(items) by { assert !IntOf(items[i], EventCount).Some?; }
        return Err(InternalServerError);
      }
      assert count.value == Count(items[i]);
      CountedNext(items, i);
      CountSumNext(items, i);
      WrapAddLeft(CountSum(items[..i]), count.value);
      sum := Wrap32(sum + count.value);
      i := i + 1;
    }
    assert items[..i] == items;
    r := Ok(sum);
  }

  /** `getStats`: the sum of every window's event count, and how many alerts
      are "high" and "critical" (0 when there are none). */
  method GetStats(items: seq<Item>, alerts: seq<Item>) returns (r: Result<StatsResponse, ApiError>)
    ensures r.Ok? <==> AllCounted(items)
    ensures r.Ok? ==> && r.value.totalEventsProcessed == Wrap32(CountSum(items))
                      && r.value.highSeverityAlerts == Wrap32(CountOf(alerts, "severity", High))
                      && r.value.criticalAlerts == Wrap32(CountOf(alerts, "severity", Critical))
  {
    var total :- SumCounts(items);
    var counts := map[High := 0, Critical := 0];
    var i := 0;
    while i < |alerts|
      invariant 0 <= i <= |alerts|
      invariant counts == SeverityTally(alerts[..i])
    {
      var key := TextOf(alerts[i], "severity");
      var before := if key in counts then counts[key] else 0;
      SeverityTallyNext(alerts, i);
      counts := counts[key := Wrap32(before + 1)];
      i := i + 1;
    }
    assert alerts[..i] == alerts;
    SeverityKeys(alerts);
    SeverityEntries(alerts);
    r := Ok(StatsResponse(total, counts[High], counts[Critical]));
  }

  /** Two different severities together count no more alerts than there
      are: `high_severity_alerts + critical_alerts` never exceeds the number
      of alerts scanned. */
  lemma {:induction false} SeverityCountsBounded(alerts: seq<Item>, a: Option<string>, b: Option<string>)
    requires a != b
    ensures CountOf(alerts, "severity", a) + CountOf(alerts, "severity", b) <= |alerts|
  {
    if |alerts| != 0 {
      SeverityCountsBounded(alerts[..|alerts| - 1], a, b);
    }
  }
}
