# Asia fare cache and flight loader, in Dafny

The system has two halves.

**The fare server (`server.js`)** refreshes a cache of round-trip fares. The routes run from nine European airports to twenty-six Asian ones. For every route, and for every pair of outbound and inbound months in a window that runs from the current month up to the date six months ahead (seven months, or eight when today's day of the month does not exist six months ahead), it asks the upstream month-view service for a fare grid. It retries a failed request once. Each result goes into a per-route list that keeps only the five cheapest flights, sorted by price. A result without a `MinPrice` is priced `Infinity`.

**The loader (`Update_Flights.js`)** reads that cache and rewrites the `Flights` table. It runs as one database transaction, handling each route in turn:

- it takes the cheapest retained flight;
- it splits that flight's trace strings into a trace map (origin, destination, `YYYY-MM-DD` date);
- it inserts one row per accepted cell of the price grid.

Any error rolls the table back.

The model follows the code's own structure:

- **Pure parts are functions.** This covers the price ordering, the sort, the key, the month tokens, the string helpers and the trace and cell readers.
- **Stateful parts are imperative.** The server's cache is a class (`Server.FlightServer`) whose methods update it in place. The month loop, the nested task loops, the retry loop, the trace-map loop and the grid loops are `while` loops. The table is a class (`UpdateFlights.FlightsTable`) whose rows a transaction replaces.
- **Each method is proved against a specification function.** The method's contract ties its result or new state to that function: `Insert`, `Collect`, `Window`, `AllQueries`, `RoundtripResult`, `TraceMap`, `CellsRows` or `SaveRows`. Lemmas then prove what the source promises about those functions.

Modules and files:

| file | module | models |
|---|---|---|
| `wrappers.dfy` | `Wrappers` | `Option` and `Result` |
| `prices.dfy` | `Prices` | a price is a natural number or `Infinity`, with JavaScript's `<` on them |
| `flights.dfy` | `Flights` | the upstream payload as far as the core reads it (`MinPrice`, `Traces`, `PriceGrids.Grid`), and a fetched flight |
| `strings.dfy` | `Strings` | `split`, `join`, `substring` |
| `top_five.dfy` | `TopFive` | `insertToTopFive` and the stable sort it calls |
| `months.dfy` | `Months` | the `YYYY-MM` month tokens and the month loop |
| `query_space.dfy` | `QuerySpace` | `generateCacheKey`, the route × month-pair query space, the key order |
| `fetch.dfy` | `Fetch` | the two-attempt retry loop of `fetchRoundtripData` |
| `server.dfy` | `Server` | the price selection, the task loop and `refreshAzjaFlightsRoundtrip` on the cache object |
| `update_flights.dfy` | `UpdateFlights` | the trace map, the date format, the cell filter, the rows and the transaction of `fetchAndSaveFlights` |

Two behaviours of the code are easy to miss:

- **Priceless results.** A result without a `MinPrice` is not dropped: it is priced `Infinity` and still takes a free slot (`Server.SelectPrice`, `Server.MissingPriceTakesSlot`).
- **Which entry the loader reads.** The loader reads only each list's first entry, the cheapest (`UpdateFlights.OnlyFirstEntryRead`).

Calls into code the model cannot see become parameters:

- **Upstream answers.** `Fetch.FetchRoundtripData` takes the answers to its first and second attempt. A whole refresh takes a `Network` function that gives them for every query.
- **Clock.** The current date (`Months.Day`: month and day of the month) and the two time stamps are parameters.
- **Published cache.** The loader takes the published cache as a list of (key, flights) pairs in key order. `Server.FlightServer.Snapshot` produces that list.

## Model

| member | source | states |
|---|---|---|
| `Prices.Less` | server.js:155 | (predicate) JavaScript's `<` on prices: a finite price is below `Infinity` and below a larger amount; `Infinity` is below nothing |
| `TopFive.Priced` | server.js:147 | an offer has an entry exactly when the flight is present and its price is a number; the entry keeps that flight and price |
| `TopFive.InsertByPrice` | server.js:153 | one insertion step of the stable sort: one entry longer, the multiset gains exactly the new entry, sortedness is kept |
| `Prices.LessEq` | server.js:153 | (definition) the comparator `a.price - b.price` is not positive, with `Infinity - Infinity` treated as equal; the sortedness it defines is kept by `TopFive.InsertByPrice`, `TopFive.SortByPrice` and `TopFive.Insert` |
| `TopFive.SortByPrice` | server.js:153 | the sort keeps length and multiset and returns a list sorted ascending by price |
| `TopFive.Insert` | server.js:145-163 | a missing flight or non-numeric price leaves the list unchanged; below five entries the flight is added (length + 1, multiset + flight); at five a price not strictly below the last is discarded (list unchanged, so ties do not replace); a strictly cheaper one replaces the last entry (length kept, multiset − last + flight); sortedness is kept; length ≤ 5 stays ≤ 5 |
| `TopFive.InsertUnfolds` | server.js:149-161 | the three numeric-price cases are push-then-sort, overwrite-last-then-sort, and no change |
| `TopFive.InsertAtEnd` | server.js:151-153 | a flight not cheaper than the last entry of a sorted list is placed at the end |
| `TopFive.SortSortedIsIdentity` | server.js:153 | sorting an already sorted list returns it unchanged |
| `TopFive.PositionBounds` | server.js:153 | in a sorted list everything before the insertion point is not more expensive than the flight, everything after it strictly more expensive |
| `TopFive.InsertByPriceAt` | server.js:153 | the insertion step places the flight at its insertion point and keeps the rest in order |
| `TopFive.InsertByPriceSplits` | server.js:153 | the insertion point splits a sorted list into the not-more-expensive prefix and the strictly-more-expensive suffix |
| `TopFive.InsertIsStable` | server.js:149-161 | on a sorted list the new flight goes after every entry of equal price: earlier flights keep precedence on ties |
| `TopFive.KeepsCheapestAppend` | server.js:149-153 | below capacity, adding a flight keeps "the list is the cheapest five seen so far" |
| `TopFive.ReplaceKeepsOrder` | server.js:155-159 | after a replacement every retained flight is not more expensive than any seen flight that was not retained |
| `TopFive.KeepsCheapestReplace` | server.js:155-159 | a strictly cheaper flight replacing the last keeps "the cheapest five seen so far" |
| `TopFive.KeepsCheapestDiscard` | server.js:155 | discarding a flight not below the last keeps "the cheapest five seen so far" |
| `TopFive.KeepsCheapest` | server.js:145-163 | after any sequence of priced flights offered to an empty list, the list has min(count, 5) entries, is sorted, is a sub-multiset of what was offered (all of it when at most five were offered), and no retained flight is more expensive than a discarded one |
| `Months.DecimalDigits` | server.js:187 | `String(n)` of a natural number is a non-empty run of digits |
| `Months.DecimalRoundTrip` | server.js:187 | reading back `String(n)` gives `n` |
| `Months.PadStart2Shape` | server.js:187 | `padStart(2, '0')` pads with zeros to length two and keeps the string at the end |
| `Months.MonthDigits` | server.js:187 | a month 1..12 written with `padStart(2, '0')` is two digits that read back as the month |
| `Months.ParseWrittenToken` | server.js:187 | a token written as digits, `-`, two digits is read back into the two numbers |
| `Months.MonthTokenRoundTrip` | server.js:187 | a month's token reads back as its year and month (1..12) |
| `Months.MonthTokensDistinct` | server.js:187 | different months have different tokens, so the month list has no repeats |
| `Months.MonthTokenFormat` | server.js:187 | for a four-digit year the token is `YYYY-MM`: seven characters, `-` at position 4, the year's digits, a month `01`..`12` |
| `Months.NextMonth` | server.js:189 | advancing one month moves to the next month of the same year, or from December to January of the next year |
| `Months.MonthToken` | server.js:187 | (definition) `${getFullYear()}-${String(getMonth() + 1).padStart(2, '0')}`; its format and read-back are `Months.MonthTokenFormat` and `Months.MonthTokenRoundTrip` |
| `Months.Decimal` | server.js:187 | (definition) `String(n)`; its digits and read-back are `Months.DecimalDigits` and `Months.DecimalRoundTrip` |
| `Months.PadStart2` | server.js:187 | (definition) `padStart(2, '0')`; its shape is `Months.PadStart2Shape` |
| `Months.Tokens` | server.js:183-189 | the tokens of `count` consecutive months have length `count` |
| `Months.TokensAre` | server.js:183-189 | the k-th of those tokens is the token of the k-th month after the start month |
| `Months.DaysInMonth` | server.js:179 | (definition) the length of a month: 29 in February of a Gregorian leap year, 28 in other Februaries, 30 in April, June, September, November, 31 otherwise; its contract proves the range 28 to 31, and `Months.AddMonths` and `Months.WindowLength` use it |
| `Months.WindowEnd` | server.js:177-179 | (definition) `endDate`: a copy of now moved six months on with `setMonth`; characterised by the contract of `Months.AddMonths` (valid, the same day when it fits, rolled over into the next month otherwise) and by `Months.WindowLength` |
| `Months.NotAfter` | server.js:185 | (definition) the loop test `d <= endDate` for a `d` at midnight on the first of its month; the loop `Months.MonthsUntil` runs while it holds and its contract gives the months it admits |
| `Months.AddMonths` | server.js:179 | `setMonth(getMonth() + k)` keeps the day of the month when the target month has it, and otherwise rolls the surplus days into the month after; the result is a valid date |
| `Months.Window` | server.js:175-191 | (definition) the tokens of every month from the current one whose first day is not after the end date, six months from now |
| `Months.WindowLength` | server.js:177-191 | the window has seven months, and eight exactly when today's day of the month does not exist six months ahead; seven whenever the day is at most 28 |
| `Months.WindowMonths` | server.js:183-189 | the window is the current month's token followed by the next months', in calendar order |
| `Months.LateAugustWindow` | server.js:177-191 | a refresh on 31 August 2026 ends on 3 March 2027 and its window has eight months, the last March 2027 |
| `Months.MonthWindow` | server.js:175-191 | the month list, with its end date computed by `setMonth`, is exactly the window |
| `Months.MonthsUntil` | server.js:183-191 | the `while (d <= endDate)` loop from the first of a month pushes exactly the tokens of the months up to the end date's month |
| `Months.FirstOfNextMonth` | server.js:189 | `setMonth(getMonth() + 1)` on the first of a month gives the first of the next month, never a roll-over |
| `Months.TokensOf` | server.js:183-189 | a list whose i-th element is the token of the i-th month from the start is the tokens of those months |
| `Strings.FirstIndex` | Update_Flights.js:37 | the index of the first occurrence of a character: no earlier occurrence, and the character is there unless the index is the length |
| `QuerySpace.CacheKey` | server.js:93-97 | the key is `from`, a `-`, then `to`, and nothing else |
| `QuerySpace.SplitCacheKey` | server.js:93-97 | for an origin code without `-`, cutting a key at its first `-` gives back (from, to) |
| `QuerySpace.CacheKeyInjective` | server.js:93-97 | for origin codes without `-`, different routes have different keys |
| `QuerySpace.RowQueries` | server.js:205 | (definition) the inner loop's queries for outbound month i, inbound months i up to j − 1; characterised by `QuerySpace.RowQueriesAre` |
| `QuerySpace.RouteQueries` | server.js:203-205 | (definition) one route's queries for the first m outbound months; characterised by `QuerySpace.RouteQueriesAre` |
| `QuerySpace.AllQueries` | server.js:195-205 | (definition) the queries of a whole refresh in loop order; characterised by `QuerySpace.AllQueriesAre` and `QuerySpace.AllQueriesCount` |
| `QuerySpace.PairCountTwice` | server.js:203-205 | a month list of length n gives n(n+1)/2 month pairs |
| `QuerySpace.RowQueriesAre` | server.js:205 | the inner loop for outbound month i issues exactly the pairs (i, j) with i ≤ j < n, one each |
| `QuerySpace.RouteQueriesAre` | server.js:203-205 | the first m outbound months issue m(2n − m + 1)/2 queries, exactly the pairs with i < m and i ≤ j < n on that route |
| `QuerySpace.DestQueriesAre` | server.js:197-205 | one origin issues \|dests\| · n(n+1)/2 queries, exactly its routes to the destinations with i ≤ j < n |
| `QuerySpace.DestQueries` | server.js:197-205 | (definition) one origin's queries for each destination in order; characterised by `QuerySpace.DestQueriesAre` |
| `QuerySpace.AllQueriesCount` | server.js:195-205 | a refresh issues \|origins\| · \|dests\| · n(n+1)/2 queries |
| `QuerySpace.AllQueriesAre` | server.js:195-205 | a query is issued exactly when its origin and destination are configured and its months satisfy i ≤ j < n |
| `QuerySpace.QueriesOrdered` | server.js:203-205 | every issued month pair has the inbound month not before the outbound one |
| `QuerySpace.RouteKeysAre` | server.js:195-201 | a key is created exactly for each configured origin × destination |
| `QuerySpace.RouteKeys` | server.js:195-201 | (definition) the cache keys of every origin × destination in loop order; characterised by `QuerySpace.RouteKeysAre` |
| `QuerySpace.OriginKeysAre` | server.js:197-201 | one origin creates a key exactly for each destination |
| `QuerySpace.OriginKeys` | server.js:197-201 | (definition) one origin's cache keys, one per destination; characterised by `QuerySpace.OriginKeysAre` |
| `Fetch.RoundtripResult` | server.js:105-139 | (definition) the outcome of the two attempts: the first successful attempt's data, else the second attempt's failure; the loop's contract `Fetch.FetchRoundtripData` ties it to the attempts made |
| `Fetch.Succeeds` | server.js:113-125 | (definition) an attempt that returns: status 200 and a body that parses; the loop's contract `Fetch.FetchRoundtripData` uses it |
| `Fetch.Throws` | server.js:113-131 | (definition) an attempt that reaches the `catch` block: the request or the JSON parse threw; `Fetch.FetchRoundtripData` uses it for the one-second delay |
| `Fetch.FailureOf` | server.js:115-131 | (definition) the error a failing attempt stands for: transport, status or parse error; `Fetch.FetchRoundtripData` says the second attempt's is the one thrown |
| `Fetch.FetchRoundtripData` | server.js:101-141 | at most two attempts, only one when the first succeeds; the result is the parsed data exactly when some attempt got status 200 with parsable JSON, taken from the first such attempt; otherwise it throws the second attempt's failure (bad status, transport error or bad JSON); the 1-second delay happens once when the first attempt threw, never after a bad status |
| `Server.Codes` | server.js:197-199 | the destination codes are the `iata` fields of the configured airports, in order |
| `Server.TaskOffer` | server.js:213-221 | (definition) a task offers its flight with the selected price when the fetch returned data, and nothing when it threw or the data is missing; `Server.CollectStep` and `Server.FailingUpstreamLeavesCache` use it |
| `Server.TaskResult` | server.js:211 | (definition) what the awaited `fetchRoundtripData` call of a task returns or throws, given the network's answers; `Server.CollectStep` and the contract of `Server.FlightServer.RunTasks` use it |
| `Server.SelectPrice` | server.js:215-219 | the price is `MinPrice` when it is a number, `Infinity` when it is undefined or null, and not a number otherwise |
| `Server.MissingPriceTakesSlot` | server.js:215-221 | a flight without `MinPrice` offered to a sorted list with a free slot is appended last, the other entries unchanged |
| `Server.Collect` | server.js:207-233 | running the tasks keeps the set of keys |
| `Server.CollectStep` | server.js:207-233 | one more task offers its priced flight, if any, to its key's list and changes nothing else |
| `Server.CollectKeepsListsBounded` | server.js:145-163 | if every list is sorted with at most five entries before the tasks run, the same holds after |
| `Server.FailingUpstreamLeavesCache` | server.js:209-231 | when every fetch fails on both attempts, the cache is left as it was: the task swallows the error |
| `Server.CollectPerKey` | server.js:199-221 | each key's final list is its initial list with that key's flights offered in task order; other keys' tasks do not touch it |
| `Server.RefreshKeepsCheapest` | server.js:199-221 | starting from an empty list, each key ends with the cheapest five of its own priced results, sorted |
| `Server.RouteTasks` | server.js:203-207 | the nested month loops issue exactly the route's pairs i ≤ j < n, n(n+1)/2 of them |
| `Server.ConfiguredQuerySpace` | server.js:17-73 | with 9 origins and 26 destinations a refresh issues 6552 queries over a seven-month window, and 8424 when today's day does not exist six months ahead and the window has eight months |
| `Server.ConfiguredSizes` | server.js:17-73 | nine origins and twenty-six destinations are configured |
| `Server.ConfiguredQueryCount` | server.js:195-205 | with the configured airports, 7 months give 6552 queries and 8 months 8424 |
| `Server.EmptyLists` | server.js:201 | every key gets an empty list, and no other key exists |
| `Server.AddKeysSnoc` | server.js:201 | setting a new key appends it to the key order, an existing key keeps its place |
| `Server.AddKeysAppend` | server.js:195-201 | adding keys in two batches orders them as adding them all at once |
| `QuerySpace.AddKeys` | server.js:201 | (definition) the key order of the cache object after setting the keys one by one; characterised by `Server.AddKeysSnoc` and `Server.AddKeysAppend` |
| `Server.EmptyListsAppend` | server.js:195-201 | resetting two batches of keys equals resetting them all |
| `Server.EmptyListsSnoc` | server.js:201 | resetting one more key is one map update |
| `Server.FlightServer.constructor` | server.js:75-77 | the cache starts empty and the last refresh is `null` |
| `Server.FlightServer.Snapshot` | server.js:257-259 | the published `flightsByCountry` lists every key once, in insertion order, with its list |
| `Server.FlightServer.InsertToTopFive` | server.js:145-163 | only the key's list changes, and it becomes `Insert` of the old list |
| `Server.FlightServer.ResetList` | server.js:201 | the key's list becomes empty; a new key is appended to the key order |
| `Server.FlightServer.QueueOrigin` | server.js:197-237 | one origin's loops reset each route's list to empty and queue exactly that origin's queries in loop order |
| `Server.FlightServer.GenerateQuerySpace` | server.js:195-241 | the nested loops reset every route's list to empty, in route order, and queue exactly the whole query space in loop order |
| `Server.FlightServer.RunTasks` | server.js:207-243 | running the queued tasks turns the cache into `Collect` of it: every fetched flight offered, in task order, to its own key's list |
| `Server.FlightServer.RefreshAzjaFlightsRoundtrip` | server.js:167-253 | afterwards the cache holds exactly the configured route keys, in route order; every list is sorted with at most five flights; the cache is the empty lists with every query of the current date's window run on them; the last refresh is the finishing time |
| `Strings.Split` | Update_Flights.js:37 | `split('*')` gives at least one piece and no piece contains the separator |
| `Strings.Join` | Update_Flights.js:37 | (definition) `parts.join(sep)`, the inverse of `split` by `Strings.SplitThenJoin` and `Strings.JoinThenSplit` |
| `Strings.Substring` | Update_Flights.js:42 | `substring(start, end)`: both ends are clamped to the length and swapped when the start is after the end; its contract gives the slice in each order of start, end and the length, and the empty string when both are past the end |
| `Strings.SplitThenJoin` | Update_Flights.js:37 | joining the pieces with the separator gives back the string |
| `Strings.JoinThenSplit` | Update_Flights.js:37 | splitting pieces that were joined, none holding the separator, gives back the pieces |
| `UpdateFlights.FormatDate` | Update_Flights.js:42 | (definition) three substrings joined by `-`; its shape is `UpdateFlights.FormatDateShape` and its inverse `UpdateFlights.CompactDate` by `UpdateFlights.FormatCompactDate` |
| `UpdateFlights.ParseTrace` | Update_Flights.js:37-43 | (definition) pieces 2 and 3 and the formatted piece 4 of `split('*')`, and no entry when there are fewer than five pieces; characterised by `UpdateFlights.ParseJoinedTrace` |
| `UpdateFlights.TraceMap` | Update_Flights.js:35-44 | (definition) the trace map built in key order, the first unreadable trace aborting; characterised by `UpdateFlights.TraceMapOk`, `UpdateFlights.TraceMapKeys` and `UpdateFlights.TraceMapValues` |
| `UpdateFlights.FormatDateShape` | Update_Flights.js:38-42 | for a date string of at least eight characters, `date_out` has ten characters, `-` at positions 4 and 7, and the first eight characters in order |
| `UpdateFlights.FormatCompactDate` | Update_Flights.js:42 | a `YYYY-MM-DD` date is what the formatting makes of its compact form |
| `UpdateFlights.ParseJoinedTrace` | Update_Flights.js:37-42 | a trace of at least five `*`-free pieces gives origin = piece 2, destination = piece 3, date = piece 4 formatted |
| `UpdateFlights.TraceMapOk` | Update_Flights.js:36-44 | building the trace map succeeds exactly when every trace has at least five pieces |
| `UpdateFlights.TraceMapKeys` | Update_Flights.js:36-44 | the trace map's keys are exactly the trace ids |
| `UpdateFlights.TraceMapKeysStep` | Update_Flights.js:36-44 | one more trace adds its id to the trace map's keys |
| `UpdateFlights.TraceMapValues` | Update_Flights.js:36-44 | each id maps to what its last trace reads as |
| `UpdateFlights.TraceMapErrSticks` | Update_Flights.js:36-44 | once a trace cannot be read, building the map fails with that trace's error whatever follows |
| `UpdateFlights.BuildTraceMap` | Update_Flights.js:35-44 | the loop builds exactly the trace map, or stops with the first unreadable trace |
| `UpdateFlights.Accepts` | Update_Flights.js:48 | (predicate) the cell test: `Indirect` present, `Price` present and non-zero, `TraceRefs` present with length 2 |
| `UpdateFlights.CellRow` | Update_Flights.js:49-60 | an accepted cell gives a row exactly when both its trace refs are in the map; origin, destination and `date_out` come from `TraceRefs[0]`, `date_back` from `TraceRefs[1]`, the price from `Indirect.Price` |
| `UpdateFlights.Accepted` | Update_Flights.js:48 | a cell is kept exactly when it is one of the grid's cells and has `Indirect`, a non-zero `Price` and exactly two `TraceRefs` |
| `UpdateFlights.CellsRows` | Update_Flights.js:46-61 | (definition) the rows of the cells in order, the first unknown trace ref aborting; characterised by `UpdateFlights.CellsRowsAre` |
| `UpdateFlights.CellsRowsAre` | Update_Flights.js:46-61 | the rows are one per accepted cell, in row-major grid order, each that cell's row; the count equals the number of accepted cells; there are no rows when an accepted cell refers to an unknown trace |
| `UpdateFlights.CellsRowsErrSticks` | Update_Flights.js:46-61 | once a cell fails, later cells do not matter |
| `UpdateFlights.FlattenAppend` | Update_Flights.js:46-47 | the row-major cell order of two grids one after the other is the concatenation |
| `UpdateFlights.FlattenAt` | Update_Flights.js:46-47 | the cells of a grid are those of the rows before row r, then row r, then the rest |
| `UpdateFlights.Flatten` | Update_Flights.js:46-47 | (definition) the cells of a grid in row-major order; characterised by `UpdateFlights.FlattenAppend` and `UpdateFlights.FlattenAt` |
| `UpdateFlights.GridErrSticks` | Update_Flights.js:46-61 | a cell that fails in row r makes the whole grid fail |
| `UpdateFlights.KeyRows` | Update_Flights.js:29-47 | a key with an empty list or a first entry without data adds no rows; a first entry without a price grid fails the load; with a grid, an unreadable trace fails the load with that trace's error; otherwise the rows are those of the first entry's grid and traces |
| `UpdateFlights.OnlyFirstEntryRead` | Update_Flights.js:30-33 | only `countryData[0]` is read: the other entries make no difference |
| `UpdateFlights.SaveRows` | Update_Flights.js:28-64 | (definition) every key's rows in key order, the first failing key aborting; characterised by `UpdateFlights.SaveRowsOk` and `UpdateFlights.SaveRowsErrSticks` |
| `UpdateFlights.SaveRowsOk` | Update_Flights.js:28-64 | a load succeeds exactly when every key's rows can be built |
| `UpdateFlights.SaveRowsErrSticks` | Update_Flights.js:28-69 | a key that fails makes the whole load fail |
| `UpdateFlights.FlightsTable.InsertGrid` | Update_Flights.js:46-63 | the grid loops succeed exactly when the cells' rows can be built, and then append exactly those rows, in order |
| `UpdateFlights.FlightsTable.InsertKeyRows` | Update_Flights.js:29-63 | the loop body for one key succeeds exactly when that key's rows can be built, and then appends exactly those rows |
| `UpdateFlights.SaveRowsStep` | Update_Flights.js:28-64 | one more key appends its rows to the load, or fails it with that key's error |
| `UpdateFlights.FlightsTable.FetchAndSaveFlights` | Update_Flights.js:22-69 | the transaction commits exactly when every key's rows can be built, leaving the table holding exactly those rows (the old rows deleted); otherwise it rolls back and the table is unchanged |

## Left out

- The Express app and its routes, CORS and static files (server.js:81-85, 257-291) are HTTP plumbing. `Server.FlightServer.Snapshot` gives the data the read endpoint returns.
- The fetch is not modelled. This covers the `undici` request, the URL and API key, `body.text()` and `JSON.parse` (server.js:103-127), and `node-fetch` in the loader. Each attempt's outcome is a parameter: a status with a parsed or unparsable body, or a transport failure.
- `p-limit` with five concurrent requests and `Promise.all` (server.js:89, 207, 243) are concurrency. The tasks run as a sequential fold in queue order. Other schedules are not modelled. Nor are the effects of a second refresh overlapping the first: it assigns a new object to `azjaFlightsCache` (server.js:171), and the first refresh's pending tasks, which read `azjaFlightsCache[key]` after their `await` (server.js:221), then write into the second refresh's object.
- `setTimeout` (server.js:135) is not modelled as a delay. The method counts the delays instead (`delays`).
- The `new Date()` time stamps and the current month (server.js:169-183, 245) are parameters.
- `Months.MonthWindow` models dates as a month and a day of the month. The time of day, time zones and daylight-saving shifts are not modelled; the first of a month at midnight is taken to be not after an end date on that same day.
- Prices are modelled as natural numbers or `Infinity`. Fractional and negative prices and a `NaN` `MinPrice` are not modelled. The comparator's `Infinity - Infinity` is `NaN`, which the sort treats as "equal"; `Prices.LessEq` models it that way. A `MinPrice` that is a string, boolean or object is "not a number" (`OtherValue`).
- `flight.data` is only modelled as present or absent; JavaScript truthiness of other values (`0`, `""`) is not.
- Console logging throughout, and the final entry count in the log (server.js:247-251), are not modelled.
- The MySQL connection, the `DELETE`, the `INSERT`s and `commit`/`rollback` (Update_Flights.js:14-26, 57-73) are not modelled as database calls. The table is a sequence of rows: deleting empties it, inserting appends, and rollback restores the rows from before the transaction.
- Rows leave out `refreshed_at` (a time stamp) and `stay_days` (Update_Flights.js:54). `stay_days` is `Date` subtraction and `Math.round`: floating point and time zones.
- `UpdateFlights.KeyRows`: a missing `PriceGrids` (a `TypeError` at Update_Flights.js:33), a missing `Grid` and a missing `Traces` object are modelled together. The first two are "no grid", reported before the traces are read. A missing `Grid` would throw only after the trace map is built. Either way the transaction rolls back; only the logged error differs.
- Values of the wrong type inside the payload are not modelled: a trace that is not a string, a grid row that is not an array, a trace ref that is not a string. The model's types rule them out.
- `UpdateFlights.SaveRows` and `UpdateFlights.FlightsTable.FetchAndSaveFlights` report which error aborted the load (`SaveError`). The source only logs it.
