/** The refresh engine of the fare server: the per-key cache of the five
    cheapest flights and `refreshAzjaFlightsRoundtrip`, which rebuilds it. */
module Server {
  import opened Wrappers
  import opened Prices
  import opened Flights
  import opened TopFive
  import opened Months
  import opened QuerySpace
  import opened Fetch

  datatype Airport = Airport(iata: string, country: string, city: string)

  /** The origins searched from. */
  const SearchFromAirports: seq<string> :=
    ["POZ", "KTW", "WAW", "KRK", "GDA", "BER", "BUD", "VIE", "PRG"]

  /** The destinations searched to. */
  const AzjaAirports: seq<Airport> := [
    Airport("BKK", "Thailand", "Bangkok"),
    Airport("HKT", "Thailand", "Phuket"),
    Airport("PEK", "China", "Beijing"),
    Airport("PVG", "China", "Shanghai"),
    Airport("HND", "Japan", "Tokyo"),
    Airport("NRT", "Japan", "Tokyo"),
    Airport("ICN", "South Korea", "Seoul"),
    Airport("SGN", "Vietnam", "Ho Chi Minh City"),
    Airport("HAN", "Vietnam", "Hanoi"),
    Airport("NQZ", "Kazakhstan", "Astana"),
    Airport("ALA", "Kazakhstan", "Almaty"),
    Airport("MNL", "Philippines", "Manila"),
    Airport("CGK", "Indonesia", "Jakarta"),
    Airport("DPS", "Indonesia", "Bali Denpasar"),
    Airport("CMB", "Sri Lanka", "Colombo"),
    Airport("DEL", "India", "Delhi"),
    Airport("MCT", "Oman", "Muscat"),
    Airport("DOH", "Qatar", "Doha"),
    Airport("DXB", "United Arab Emirates", "Dubai"),
    Airport("AUH", "United Arab Emirates", "Abu Dhabi"),
    Airport("SIN", "Singapore", "Singapore"),
    Airport("TBS", "Georgia", "Tbilisi"),
    Airport("KUT", "Georgia", "Kutaisi"),
    Airport("GYD", "Azerbaijan", "Baku"),
    Airport("IST", "Turkey", "Istanbul"),
    Airport("SAW", "Turkey", "Istanbul Sabiha")
  ]

  function Codes(airports: seq<Airport>): (codes: seq<string>)
    ensures |codes| == |airports|
    ensures forall i :: 0 <= i < |airports| ==> codes[i] == airports[i].iata
  {
    seq(|airports|, i requires 0 <= i < |airports| => airports[i].iata)
  }

  /** The `price` given to a fetched flight: `MinPrice` unless it is
      `undefined` or `null`, in which case `Infinity`. `None` stands for a
      `MinPrice` that is not a number, which `insertToTopFive` then ignores. */
  function SelectPrice(minPrice: Field): (p: Option<Price>)
    ensures p == Some(Inf) <==> minPrice.Undefined? || minPrice.Null?
    ensures p.Some? && p.value.Fin? <==> minPrice.Number?
    ensures minPrice.Number? ==> p.value.amount == minPrice.n
    ensures p.None? <==> minPrice.OtherValue?
  {
    match minPrice
    case Undefined => Some(Inf)
    case Null => Some(Inf)
    case Number(n) => Some(Fin(n))
    case OtherValue => None
  }

  /** A flight without a `MinPrice` still takes a free slot, and it goes
      last: `Infinity` is not below any price. */
  lemma {:induction false} MissingPriceTakesSlot(arr: seq<Entry>, flight: Flight)
    requires SortedByPrice(arr) && |arr| < Capacity
    ensures var r := Insert(arr, Some(Offer(flight, SelectPrice(Undefined))));
      && |r| == |arr| + 1 && r[|arr|] == Entry(flight, Inf) && r[..|arr|] == arr
  {
    var e := Entry(flight, Inf);
    InsertIsStable(arr, Some(Offer(flight, SelectPrice(Undefined))));
    InsertByPriceSplits(arr, e);
    PositionAtEnd(arr, e);
  }

  /** What a task offers to `insertToTopFive` for the result of its fetch:
      nothing when the fetch threw or its data is falsy. */
  function TaskOffer(r: FetchResult): Option<Offer>
  {
    if r.Fetched? && r.flight.data.Some? then
      Some(Offer(r.flight, SelectPrice(r.flight.data.value.minPrice)))
    else None
  }

  /** The upstream, abstracted: its answers to the first and second attempt
      of each query. */
  type Network = Query -> (Answer, Answer)

  predicate InWindow(q: Query, months: seq<string>)
  {
    q.outbound < |months| && q.inbound < |months|
  }

  /** Every task's months are in the list and its key has a list. */
  predicate TasksFit(tasks: seq<Query>, months: seq<string>, cache: map<string, seq<Entry>>)
  {
    forall q :: q in tasks ==> InWindow(q, months) && CacheKey(q.from, q.to) in cache
  }

  /** The result of one task's fetch. */
  function TaskResult(q: Query, months: seq<string>, network: Network): FetchResult
    requires InWindow(q, months)
  {
    RoundtripResult(q.from, q.to, months[q.outbound], months[q.inbound], network(q).0, network(q).1)
  }

  /** The cache after running `tasks` one after another. */
  function Collect(cache: map<string, seq<Entry>>, tasks: seq<Query>, months: seq<string>, network: Network)
    : (r: map<string, seq<Entry>>)
    requires TasksFit(tasks, months, cache)
    ensures r.Keys == cache.Keys
  {
    if tasks == [] then cache
    else
      var c := Collect(cache, tasks[..|tasks| - 1], months, network);
      var q := tasks[|tasks| - 1];
      var key := CacheKey(q.from, q.to);
      var offer := TaskOffer(TaskResult(q, months, network));
      if offer.Some? then c[key := Insert(c[key], offer)] else c
  }

  /** `Collect` over one more task. */
  lemma {:induction false} CollectStep(cache: map<string, seq<Entry>>, tasks: seq<Query>, months: seq<string>,
                                       network: Network, t: nat)
    requires TasksFit(tasks, months, cache) && t < |tasks|
    ensures TasksFit(tasks[..t], months, cache) && TasksFit(tasks[..t + 1], months, cache)
    ensures tasks[t] in tasks && CacheKey(tasks[t].from, tasks[t].to) in Collect(cache, tasks[..t], months, network)
    ensures var c := Collect(cache, tasks[..t], months, network);
      var key := CacheKey(tasks[t].from, tasks[t].to);
      var offer := TaskOffer(TaskResult(tasks[t], months, network));
      Collect(cache, tasks[..t + 1], months, network) == if offer.Some? then c[key := Insert(c[key], offer)] else c
  {
    assert forall q :: q in tasks[..t] ==> q in tasks;
    assert forall q :: q in tasks[..t + 1] ==> q in tasks;
    assert tasks[..t + 1][..t] == tasks[..t];
  }

  /** Every list is sorted and holds at most five flights. */
  predicate ListsBounded(cache: map<string, seq<Entry>>)
  {
    forall k :: k in cache ==> SortedByPrice(cache[k]) && |cache[k]| <= Capacity
  }

  /** A refresh keeps every list sorted and at most five long. */
  lemma {:induction false} CollectKeepsListsBounded(cache: map<string, seq<Entry>>, tasks: seq<Query>,
                                                     months: seq<string>, network: Network)
    requires TasksFit(tasks, months, cache)
    requires ListsBounded(cache)
    ensures ListsBounded(Collect(cache, tasks, months, network))
  {
    if tasks != [] {
      CollectKeepsListsBounded(cache, tasks[..|tasks| - 1], months, network);
    }
  }

  /** When every upstream call fails, the lists stay as they were (empty,
      after the reset at the start of a refresh). */
  lemma {:induction false} FailingUpstreamLeavesCache(cache: map<string, seq<Entry>>, tasks: seq<Query>,
                                                      months: seq<string>, network: Network)
    requires TasksFit(tasks, months, cache)
    requires forall q :: q in tasks ==> !Succeeds(network(q).0) && !Succeeds(network(q).1)
    ensures Collect(cache, tasks, months, network) == cache
  {
    if tasks != [] {
      FailingUpstreamLeavesCache(cache, tasks[..|tasks| - 1], months, network);
    }
  }

  /** The priced flights the tasks offer to `key`, in task order. */
  function KeyEntries(key: string, tasks: seq<Query>, months: seq<string>, network: Network): seq<Entry>
    requires forall q :: q in tasks ==> InWindow(q, months)
  {
    if tasks == [] then []
    else
      var es := KeyEntries(key, tasks[..|tasks| - 1], months, network);
      var q := tasks[|tasks| - 1];
      var e := Priced(TaskOffer(TaskResult(q, months, network)));
      if CacheKey(q.from, q.to) == key && e.Some? then es + [e.value] else es
  }

  lemma {:induction false} CollectPerKey(cache: map<string, seq<Entry>>, tasks: seq<Query>,
                                         months: seq<string>, network: Network, key: string)
    requires TasksFit(tasks, months, cache)
    requires key in cache
    ensures Collect(cache, tasks, months, network)[key] == InsertAll(cache[key], KeyEntries(key, tasks, months, network))
  {
    if tasks != [] {
      var front := tasks[..|tasks| - 1];
      CollectPerKey(cache, front, months, network, key);
      var q := tasks[|tasks| - 1];
      var offer := TaskOffer(TaskResult(q, months, network));
      var es := KeyEntries(key, front, months, network);
      if CacheKey(q.from, q.to) == key && Priced(offer).Some? {
        var e := Priced(offer).value;
        assert (es + [e])[..|es|] == es;
        assert Insert(InsertAll(cache[key], es), offer)
            == Insert(InsertAll(cache[key], es), Some(Offer(e.flight, Some(e.price))));
      }
    }
  }

  /** After a refresh from empty lists, each key's list holds the five
      cheapest of the priced flights fetched for it, whatever the order the
      tasks ran in: min(5, n) of them, sorted, none dearer than one dropped. */
  lemma {:induction false} RefreshKeepsCheapest(cache: map<string, seq<Entry>>, tasks: seq<Query>,
                             months: seq<string>, network: Network, key: string)
    requires TasksFit(tasks, months, cache)
    requires key in cache && cache[key] == []
    ensures RetainsCheapest(KeyEntries(key, tasks, months, network), Collect(cache, tasks, months, network)[key])
  {
    CollectPerKey(cache, tasks, months, network, key);
    KeepsCheapest(KeyEntries(key, tasks, months, network));
  }

  /** The inner two loops of the generator for one route: every month pair
      `(i, j)` with `i <= j < n`, in loop order. */
  method RouteTasks(from: string, to: string, n: nat) returns (tasks: seq<Query>)
    ensures tasks == RouteQueries(from, to, n, n)
    ensures |tasks| == PairCount(n)
    ensures forall q :: q in tasks ==> q.from == from && q.to == to && q.outbound <= q.inbound < n
  {
    tasks := [];
    var i := 0;
    while i < n
      invariant 0 <= i <= n
      invariant tasks == RouteQueries(from, to, i, n)
    {
      var j := i;
      while j < n
        invariant i <= j <= n
        invariant tasks == RouteQueries(from, to, i, n) + RowQueries(from, to, i, j)
      {
        tasks := tasks + [Query(from, to, i, j)];
        j := j + 1;
      }
      i := i + 1;
    }
    forall q | q in tasks ensures q.from == from && q.to == to && q.outbound <= q.inbound < n {
      RouteQueriesAre(from, to, n, n, q);
    }
    RouteQueriesAre(from, to, n, n, Query(from, to, 0, 0));
    PairCountTwice(n);
    assert n * (2 * n - n + 1) == n * (n + 1);
  }

  /** With the configured airports, a refresh queries 9 × 26 routes, each on
      7 × 8 / 2 = 28 month pairs of a seven-month window: 6552 queries; or
      8 × 9 / 2 = 36 pairs of an eight-month window: 8424 queries. */
  lemma {:induction false} ConfiguredQuerySpace(now: Day)
    requires ValidDay(now)
    ensures |AllQueries(SearchFromAirports, Codes(AzjaAirports), |Window(now)|)| ==
      if now.day <= DaysInMonth(now.month + WindowWidth) then 6552 else 8424
  {
    WindowLength(now);
    ConfiguredQueryCount(|Window(now)|);
  }

  lemma {:induction false} ConfiguredQueryCount(n: nat)
    requires n == 7 || n == 8
    ensures |AllQueries(SearchFromAirports, Codes(AzjaAirports), n)| == if n == 7 then 6552 else 8424
  {
    ConfiguredSizes();
    PairCountTwice(n);
    var p := PairCount(n);
    assert p == if n == 7 then 28 else 36;
    AllQueriesCount(SearchFromAirports, Codes(AzjaAirports), n);
    assert |AllQueries(SearchFromAirports, Codes(AzjaAirports), n)| == 9 * (26 * p);
  }

  /** Nine origins and twenty-six destinations. */
  lemma {:induction false} ConfiguredSizes()
    ensures |SearchFromAirports| == 9 && |Codes(AzjaAirports)| == 26
  {
  }

  /** `{ key: [] }` for every key in `keys`. */
  function EmptyLists(keys: seq<string>): (m: map<string, seq<Entry>>)
    ensures forall k :: k in m <==> k in keys
    ensures forall k :: k in m ==> m[k] == []
  {
    map k | k in keys :: []
  }

  lemma {:induction false} AddKeysSnoc(keys: seq<string>, more: seq<string>, k: string)
    ensures AddKeys(keys, more + [k])
         == if k in AddKeys(keys, more) then AddKeys(keys, more) else AddKeys(keys, more) + [k]
  {
    assert (more + [k])[..|more|] == more;
  }

  lemma {:induction false} AddKeysAppend(keys: seq<string>, more: seq<string>, rest: seq<string>)
    ensures AddKeys(keys, more + rest) == AddKeys(AddKeys(keys, more), rest)
  {
    if rest == [] {
      assert more + rest == more;
    } else {
      var front, k := rest[..|rest| - 1], rest[|rest| - 1];
      assert more + rest == (more + front) + [k];
      AddKeysSnoc(keys, more + front, k);
      AddKeysAppend(keys, more, front);
      AddKeysSnoc(AddKeys(keys, more), front, k);
    }
  }

  lemma {:induction false} EmptyListsAppend(cache: map<string, seq<Entry>>, keys: seq<string>, more: seq<string>)
    ensures cache + EmptyLists(keys + more) == (cache + EmptyLists(keys)) + EmptyLists(more)
  {
  }

  lemma {:induction false} EmptyListsSnoc(cache: map<string, seq<Entry>>, keys: seq<string>, k: string)
    ensures cache + EmptyLists(keys + [k]) == (cache + EmptyLists(keys))[k := []]
  {
  }

  predicate Distinct(s: seq<string>)
  {
    forall i, j :: 0 <= i < j < |s| ==> s[i] != s[j]
  }

  /** The server's module-level state: `azjaFlightsCache`, an object whose
      keys keep the order they were added in (`keys`), and `lastAzjaRefresh`
      (a time stamp, `None` for `null`). */
  class FlightServer {
    var cache: map<string, seq<Entry>>
    var keys: seq<string>
    var lastRefresh: Option<nat>

    ghost predicate Valid()
      reads this
    {
      Distinct(keys) && forall k :: k in cache <==> k in keys
    }

    constructor ()
      ensures Valid() && cache == map[] && keys == [] && lastRefresh == None
    {
      cache, keys, lastRefresh := map[], [], None;
    }

    /** `flightsByCountry` as the read endpoint sends it: the lists in key
        order. */
    function Snapshot(): (s: seq<(string, seq<Entry>)>)
      reads this
      requires Valid()
      ensures |s| == |keys|
      ensures forall i :: 0 <= i < |s| ==> s[i].0 == keys[i] && s[i].1 == cache[keys[i]]
    {
      seq(|keys|, i requires 0 <= i < |keys| reads this =>
        (keys[i], if keys[i] in cache then cache[keys[i]] else []))
    }

    /** `insertToTopFive(azjaFlightsCache[key], flight)`. */
    method InsertToTopFive(key: string, offer: Option<Offer>)
      requires Valid() && key in cache
      modifies this
      ensures Valid() && keys == old(keys) && lastRefresh == old(lastRefresh)
      ensures cache == old(cache)[key := Insert(old(cache)[key], offer)]
    {
      var arr := cache[key];
      ghost var updated := Insert(arr, offer);
      if offer.Some? && offer.value.price.Some? {
        var flight := Entry(offer.value.flight, offer.value.price.value);
        InsertUnfolds(arr, offer, flight);
        if |arr| < Capacity {
          arr := arr + [flight];
          arr := SortByPrice(arr);
        } else if Less(flight.price, arr[|arr| - 1].price) {
          arr := arr[|arr| - 1 := flight];
          arr := SortByPrice(arr);
        }
      }
      assert arr == updated;
      cache := cache[key := arr];
    }

    /** `azjaFlightsCache[key] = []`: a new key is added at the end, an
        existing one keeps its place. */
    method ResetList(key: string)
      requires Valid()
      modifies this
      ensures Valid() && lastRefresh == old(lastRefresh)
      ensures cache == old(cache)[key := []]
      ensures keys == if key in old(keys) then old(keys) else old(keys) + [key]
    {
      if key !in cache {
        keys := keys + [key];
      }
      cache := cache[key := []];
    }

    /** The loops over one origin's destinations: set each route's list to
        `[]` and queue its tasks. */
    method QueueOrigin(from: string, dests: seq<string>, n: nat) returns (tasks: seq<Query>)
      requires Valid()
      modifies this
      ensures Valid() && lastRefresh == old(lastRefresh)
      ensures tasks == DestQueries(from, dests, n)
      ensures keys == AddKeys(old(keys), OriginKeys(from, dests))
      ensures cache == old(cache) + EmptyLists(OriginKeys(from, dests))
    {
      tasks := [];
      var b := 0;
      while b < |dests|
        invariant 0 <= b <= |dests| && Valid() && lastRefresh == old(lastRefresh)
        invariant tasks == DestQueries(from, dests[..b], n)
        invariant keys == AddKeys(old(keys), OriginKeys(from, dests[..b]))
        invariant cache == old(cache) + EmptyLists(OriginKeys(from, dests[..b]))
      {
        var to := dests[b];
        var key := CacheKey(from, to);
        assert dests[..b + 1][..b] == dests[..b];
        ghost var before := OriginKeys(from, dests[..b]);
        assert OriginKeys(from, dests[..b + 1]) == before + [key];
        ResetList(key);
        AddKeysSnoc(old(keys), before, key);
        EmptyListsSnoc(old(cache), before, key);
        var route := RouteTasks(from, to, n);
        tasks := tasks + route;
        b := b + 1;
      }
      assert dests[..b] == dests;
    }

    /** The nested loops of the refresh: for every route set its list to
        `[]`, then queue one task per month pair `i <= j`. */
    method GenerateQuerySpace(origins: seq<string>, dests: seq<string>, months: seq<string>)
      returns (tasks: seq<Query>)
      requires Valid()
      modifies this
      ensures Valid() && lastRefresh == old(lastRefresh)
      ensures tasks == AllQueries(origins, dests, |months|)
      ensures keys == AddKeys(old(keys), RouteKeys(origins, dests))
      ensures cache == old(cache) + EmptyLists(RouteKeys(origins, dests))
    {
      var n := |months|;
      tasks := [];
      var a := 0;
      while a < |origins|
        invariant 0 <= a <= |origins| && Valid() && lastRefresh == old(lastRefresh)
        invariant tasks == AllQueries(origins[..a], dests, n)
        invariant keys == AddKeys(old(keys), RouteKeys(origins[..a], dests))
        invariant cache == old(cache) + EmptyLists(RouteKeys(origins[..a], dests))
      {
        var from := origins[a];
        ghost var before := RouteKeys(origins[..a], dests);
        assert origins[..a + 1][..a] == origins[..a];
        assert RouteKeys(origins[..a + 1], dests) == before + OriginKeys(from, dests);
        var more := QueueOrigin(from, dests, n);
        tasks := tasks + more;
        AddKeysAppend(old(keys), before, OriginKeys(from, dests));
        EmptyListsAppend(old(cache), before, OriginKeys(from, dests));
        a := a + 1;
      }
      assert origins[..a] == origins;
    }

    /** The tasks of one refresh, run one after another: fetch, give the
        flight its price, offer it to its key's list. A fetch that throws, or
        whose data is falsy, offers nothing. */
    method RunTasks(tasks: seq<Query>, months: seq<string>, network: Network)
      requires Valid()
      requires TasksFit(tasks, months, cache)
      modifies this
      ensures Valid() && keys == old(keys) && lastRefresh == old(lastRefresh)
      ensures cache == Collect(old(cache), tasks, months, network)
    {
      var t := 0;
      while t < |tasks|
        invariant 0 <= t <= |tasks| && Valid() && keys == old(keys) && lastRefresh == old(lastRefresh)
        invariant cache == Collect(old(cache), tasks[..t], months, network)
      {
        var q := tasks[t];
        var key := CacheKey(q.from, q.to);
        CollectStep(old(cache), tasks, months, network, t);
        var (first, second) := network(q);
        var result, _, _ := FetchRoundtripData(q.from, q.to, months[q.outbound], months[q.inbound], first, second);
        assert result == TaskResult(q, months, network);
        ghost var c, offer := cache, TaskOffer(result);
        if result.Fetched? && result.flight.data.Some? {
          var price := SelectPrice(result.flight.data.value.minPrice);
          assert offer == Some(Offer(result.flight, price));
          InsertToTopFive(key, Some(Offer(result.flight, price)));
          assert cache == c[key := Insert(c[key], offer)];
        } else {
          assert offer.None?;
        }
        t := t + 1;
      }
      assert tasks[..t] == tasks;
    }

    /** `refreshAzjaFlightsRoundtrip`: reset the cache, build the month
        window and the query space, run every task, stamp the time. The
        clock is read by the caller: `startedAt` and `finishedAt` are the two
        `new Date()` stamps, `now` the current date. */
    method RefreshAzjaFlightsRoundtrip(origins: seq<string>, dests: seq<string>, now: Day,
                                       startedAt: nat, finishedAt: nat, network: Network)
      requires Valid() && ValidDay(now)
      modifies this
      ensures Valid() && lastRefresh == Some(finishedAt)
      ensures keys == AddKeys([], RouteKeys(origins, dests))
      ensures forall k :: k in cache <==> k in RouteKeys(origins, dests)
      ensures ListsBounded(cache)
      ensures TasksFit(AllQueries(origins, dests, |Window(now)|), Window(now), EmptyLists(RouteKeys(origins, dests)))
        && cache == Collect(EmptyLists(RouteKeys(origins, dests)),
                            AllQueries(origins, dests, |Window(now)|), Window(now), network)
    {
      cache, keys := map[], [];
      lastRefresh := Some(startedAt);
      var months := MonthWindow(now);
      var tasks := GenerateQuerySpace(origins, dests, months);
      assert cache == EmptyLists(RouteKeys(origins, dests));
      forall q | q in tasks ensures InWindow(q, months) && CacheKey(q.from, q.to) in cache {
        AllQueriesAre(origins, dests, |months|, q);
        RouteKeysAre(origins, dests, CacheKey(q.from, q.to));
      }
      RunTasks(tasks, months, network);
      CollectKeepsListsBounded(EmptyLists(RouteKeys(origins, dests)), tasks, months, network);
      lastRefresh := Some(finishedAt);
    }
  }
}
