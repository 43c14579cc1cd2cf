# Real-estate listings backend: a verified Dafny model

This project models the logic of a small real-estate dashboard backend (an
Express server in front of a Snowflake warehouse) and of the date parser of its
listings scraper. Dafny proves the properties stated below.

- **Filter compiler** (`filter_compiler.dfy`, module `FilterCompiler`). This is
  `buildWhereClause`. It turns the loosely typed query fields `search`, `rooms`,
  `priceRange[]` and `surfaceRange[]` into a parameterised SQL `WHERE` clause
  and a positional bind list.
  - `Filters` says which predicates a request activates and in which order.
  - `Compile` says what text and binds those predicates make.
  - The method `BuildWhereClause` builds the result the way the source does, by
    pushing onto two growing lists. It is proved equal to `Compile`.
- **Query service** (`query_service.dfy`, module `QueryService`). This covers
  the parameter arithmetic of the handlers:
  - the page, page size, offset and `totalPages` of `/api/listings`;
  - the sort order and limit of `/api/stats/avg_price_by_district`;
  - the statements both handlers send, with their binds;
  - the room-count labels of `/api/stats/distribution_by_rooms`.
- **Response cache** (`response_cache.dfy`, module `ResponseCache`). This is
  the read-through cache every handler wraps around its queries. It is a class
  over a map from request URL to entry, with an explicit millisecond clock.
  The queries are an oracle whose answer is a parameter.
- **Relative dates** (`relative_date.dfy`, module `RelativeDate`). This is the
  scraper's `converteste_data_relativa`. Dates are day numbers, and "today" is
  a parameter.
- **Shared text models**:
  - `js_text.dfy` has JavaScript whitespace, `trim`, ASCII `toLowerCase`,
    `parseInt` (with and without radix 10) and `String(n)`.
  - `numerals.dfy` has digit runs and decimal rendering.
  - `sql_text.dfy` has `join` and counting `?` placeholders.
  - `wrappers.dfy` has `Option`.

`parseInt` follows ECMAScript. It skips leading whitespace, takes an optional
sign and then the longest run of digits. It gives `None` (standing for `NaN`)
when there are no digits. When the call passes no radix (the `rooms` and
`limit` calls), a `0x` or `0X` prefix switches to base 16.

Three behaviours of the code are worth stating on their own:

- The filter columns are `titlu`, `locatie`, `numar_camere`, `pret` and
  `suprafata_mp`.
- The two ends of a range are judged separately. A first element that does not
  parse still leaves the upper bound in place (`BoundsAreIndependent`).
- `ORDER BY room_category` sorts by code point. For non-negative counts,
  "2 Camere" sorts before "5+ Camere", so the label order agrees with the count
  order (`RoomCategoriesSortByCount`).

## Model

| member | source | states |
|---|---|---|
| FilterCompiler.BuildWhereClause | backend_api/server.js:13-58 | The pushed lists give exactly `Compile(q)`. There are as many `?` as binds. The clause starts with "WHERE 1=1". It is exactly "WHERE 1=1" iff there are no binds. |
| FilterCompiler.PushRangeBounds | backend_api/server.js:28-52 | One range block appends the fragments and binds of that range's predicates, minimum before maximum, and nothing else. |
| FilterCompiler.FragmentPlaceholders | backend_api/server.js:19-50 | Each pushed fragment has as many `?` as the values pushed with it. |
| FilterCompiler.ClausePlaceholders | backend_api/server.js:15-57 | The `?` count of the joined clause equals the length of the bind list. |
| FilterCompiler.ClauseShape | backend_api/server.js:15-57 | The clause always starts with "WHERE 1=1". With no predicate it is exactly that, with no binds. Otherwise the fragments follow, joined with " AND ", and there are binds. |
| FilterCompiler.FiltersInClauseOrder | backend_api/server.js:18-52 | Predicates appear in the fixed order search, rooms, price min, price max, surface min, surface max. No kind appears twice. |
| FilterCompiler.KindsOfParts | backend_api/server.js:18-52 | Each block adds only its own kind of predicate, and a range block only its own column. |
| FilterCompiler.SearchFilterIff | backend_api/server.js:18-21 | A search predicate for a term is present iff `search` is that term and the term is not all whitespace. |
| FilterCompiler.SearchBindsFirst | backend_api/server.js:18-20 | A search makes the first two binds, both "%" + term + "%", with the term untrimmed. |
| FilterCompiler.RoomsFilterIff | backend_api/server.js:23-26 | `numar_camere = ?` binding n is present iff `rooms` is given and `parseInt(rooms)` is n. The blank test adds nothing. |
| FilterCompiler.LowerBoundIff | backend_api/server.js:28-47 | `col >= ?` binding n is present iff the range has exactly 2 elements and the first parses in base 10 to n > 0. |
| FilterCompiler.UpperBoundIff | backend_api/server.js:28-51 | `col <= ?` binding n is present iff the range has exactly 2 elements and the second parses to n below 500000 (price) or 200 (surface). |
| FilterCompiler.SentinelBoundsAddNothing | backend_api/server.js:31-51 | A minimum of 0 or less with a maximum at or above the slider maximum adds no predicate. |
| FilterCompiler.InteriorBoundsAddBoth | backend_api/server.js:28-52 | Bounds strictly inside the slider add both predicates and bind [min, max] in that order. |
| FilterCompiler.BoundsAreIndependent | backend_api/server.js:29-38 | A first element that does not parse leaves a valid upper bound in place. |
| FilterCompiler.NoFiltersExample | backend_api/server.js:15-57 | No fields give "WHERE 1=1" and no binds. |
| FilterCompiler.RoomsAndPriceExample | backend_api/server.js:13-58 | Rooms n with price lo..hi inside the slider give "WHERE 1=1 AND numar_camere = ? AND pret >= ? AND pret <= ?" with binds [n, lo, hi]. |
| FilterCompiler.RoomsOfIntToString | backend_api/server.js:23-25 | A decimal room count gives exactly one equality on that count. |
| JsText.TrimEmptyIffBlank | backend_api/server.js:18 | `s.trim() === ''` iff every character of s is JavaScript whitespace. |
| JsText.ParseIntOfBlank | backend_api/server.js:23 | `parseInt` of a blank string is NaN. |
| JsText.ParseIntSkipsWhitespace | backend_api/server.js:23 | Leading whitespace does not change what `parseInt` reads. |
| JsText.ParseIntOfIntToString | backend_api/server.js:25 | `parseInt` reads back any integer's decimal form. It ignores what follows from the first non-digit. The one exception: without a radix, a lone "0" followed by "x" or "X" is a hexadecimal prefix. |
| Numerals.DigitRunIsLongestPrefix | backend_api/server.js:29 | The digits `parseInt` takes are the longest run of digits at the start. |
| Numerals.ValueOfNatToString | backend_api/server.js:219 | A count's decimal rendering denotes the count. |
| SqlText.JoinPlaceholders | backend_api/server.js:55 | Joining with " AND " adds no placeholder and keeps each part's. |
| QueryService.TotalPagesIsCeiling | backend_api/server.js:122 | `totalPages` is the least integer at or above total/pageSize, for either sign of pageSize. |
| QueryService.ListingsStatementsAligned | backend_api/server.js:107-117 | The count statement binds the filter's values. The row statement binds those plus [pageSize, offset]. Each statement's `?` count equals its bind count. |
| QueryService.DefaultPagination | backend_api/server.js:101-104 | Absent `page` and `pageSize` mean page 1 of 15 rows, at offset 0. |
| QueryService.PaginationReadsDecimals | backend_api/server.js:101-103 | Decimal `page` and `pageSize` are read back exactly. |
| QueryService.NextPageOffset | backend_api/server.js:104 | Consecutive pages start `pageSize` rows apart. |
| QueryService.RowOnOnePage | backend_api/server.js:104 | With a positive page size, every row lies on exactly one page. |
| QueryService.LastPageHoldsTheLastRow | backend_api/server.js:104-122 | Page `totalPages` starts before the last row and reaches it. |
| QueryService.PageBeyondTotalIsEmpty | backend_api/server.js:104-122 | A page past `totalPages` starts after the last row, so its listing is empty. |
| QueryService.SortOrder | backend_api/server.js:184 | The order keyword is always "ASC" or "DESC". Nothing from `sort` reaches the text. |
| QueryService.SortOrderIff | backend_api/server.js:183-184 | The order is "ASC" iff `sort` is "asc" in any mix of case. Absent means "DESC". |
| QueryService.LimitReadsDecimal | backend_api/server.js:185 | A decimal limit followed by text that starts with no digit is read back exactly ("5x" reads as 5). After a lone 0, that text must not start with "x" or "X". |
| QueryService.LimitDefaultsWhenNotNumeric | backend_api/server.js:185 | A limit that `parseInt` cannot read becomes 10. |
| QueryService.LimitReadsHex | backend_api/server.js:185 | Without a radix, `limit=0x1f` reads as 31. |
| QueryService.DistrictStatementAligned | backend_api/server.js:186-196 | The district statement binds the filter's values and then the limit. Its `?` count equals its bind count whatever the sort. |
| QueryService.RoomCategoryExample | backend_api/server.js:216-220 | Counts 1, 2, 5 and 7 label as "1 Camera (Garsoniera)", "2 Camere", "5+ Camere" and "5+ Camere". |
| QueryService.RoomCategorySameIff | backend_api/server.js:216-220 | Two counts share a label iff they are equal or both at least 5. |
| QueryService.RoomCategoriesSortByCount | backend_api/server.js:216-225 | For non-negative counts, a smaller count's label sorts first unless both are "5+ Camere". |
| ResponseCache.Cache.constructor | backend_api/server.js:9 | The cache starts empty. |
| ResponseCache.Cache.Has | backend_api/server.js:97 | `has` hits iff the key is stored and not past its expiry. It deletes the key's expired entry and touches nothing else. |
| ResponseCache.Cache.Get | backend_api/server.js:98 | `get` returns the stored value iff it is live, else undefined. It prunes like `has`. |
| ResponseCache.Cache.Set | backend_api/server.js:126 | `set` stores the value under the key, expiring 600000 ms later. No other key changes. |
| ResponseCache.ServeAsWritten | backend_api/server.js:96-127 | On a hit the queries do not run and the stored body is sent, or an empty body if it expired between `has` and `get`; the cache is then as `get` leaves it, with that expired entry deleted. On a miss the queries run, and a success is stored under the URL before it is sent. A failure stores nothing and answers 500. |
| ResponseCache.Serve | backend_api/server.js:96-127 | Template with a single lookup. It behaves the same on a miss and a failure. A hit sends the stored body and leaves the cache unchanged, so it never sends an empty body. |
| ResponseCache.RepeatWithinTtl | backend_api/server.js:96-126 | Through the handler as written, with `has` and `get` of a request reading the same time: a repeat of a URL within 600 s does not run the queries and answers the first body. |
| ResponseCache.RepeatAfterTtl | backend_api/server.js:9 | Through the handler as written: a repeat after 600 s runs the queries again and answers the new body. |
| ResponseCache.RetryAfterFailure | backend_api/server.js:114-132 | Through the handler as written: after a failed query, the next request for the URL runs the queries. |
| ResponseCache.OtherKeyMisses | backend_api/server.js:96 | Through the handler as written: different URLs never share an entry. |
| ResponseCache.ClockRaceAsWritten | backend_api/server.js:97-98 | Entry stored at 0, `has` at 600000 ms, `get` at 600001 ms: the handler answers an empty body. |
| ResponseCache.ClockRaceCorrected | backend_api/server.js:96-127 | On the same timeline the single-lookup template answers the fresh query result. |
| RelativeDate.ConvertRelativeDate | istoric_scraper.py:10-27 | A result that is a date is between the first day of the calendar and today. |
| RelativeDate.DaysBefore | istoric_scraper.py:20-26 | n days back is the date exactly n days before today whenever n < today, and the overflow iff n reaches before day 1. |
| RelativeDate.NoTextNoDate | istoric_scraper.py:11-12 | `None` and "" give no date. |
| RelativeDate.LowerIdempotent | istoric_scraper.py:15 | Lower-casing twice is lower-casing once. |
| RelativeDate.CaseInsensitive | istoric_scraper.py:15 | A text and its lower-case form give the same result. |
| RelativeDate.TodayTakesPrecedence | istoric_scraper.py:17-18 | "astăzi" anywhere (in any case) means today, even next to "ieri" or a day count. |
| RelativeDate.YesterdayBeforeDayCount | istoric_scraper.py:19-20 | Otherwise "ieri" anywhere means yesterday, even next to a day count. |
| RelativeDate.FirstAcumMatchIsLeftmost | istoric_scraper.py:22 | The day count comes from the leftmost `acum (\d+) zile` match. There is none iff no position matches. |
| RelativeDate.AcumMatchOfDigits | istoric_scraper.py:22-24 | "acum N zile" matches with N wherever it stands, whatever follows. |
| RelativeDate.DayCountBack | istoric_scraper.py:22-25 | "acum N zile" gives the date N days before today. |
| RelativeDate.DayCountOverflow | istoric_scraper.py:25 | A day count reaching before day 1 raises the overflow. |
| RelativeDate.DayCountExample | istoric_scraper.py:15-25 | "Acum 3 zile" is three days back. |

## Left out

- `runQuery` and the warehouse connection (backend_api/server.js:60-90) are foreign network calls. Query results are an oracle parameter, `Some(body)` or `None` for a thrown error.
- SQL evaluation is not modelled: filtering, `GROUP BY`, `AVG`/`ROUND`, `SPLIT_PART`, `COUNT` and the sector regex. The model covers only the statement text and binds the handlers build.
- The KPI and sector handlers (backend_api/server.js:135-173, 236-260) build a statement from the compiled filter with no arithmetic of their own. Only their use of `buildWhereClause` and the cache template is covered.
- Express routing, CORS and `app.listen` are framework plumbing. A repeated query field arriving as an array for `search`, `rooms` or `sort` (a `TypeError`, hence 500) is not modelled. A range field that is not an array is modelled as absent.
- SQL whitespace: the statements are modelled with single spaces where the template literals have newlines and indentation. Placeholder and bind counts do not depend on it.
- QueryService.PlanListings: a non-numeric `page` or `pageSize` gives `None`. The handler's `NaN` arithmetic is not modelled.
- QueryService.TotalPages: `None` for a page size of 0 stands for JavaScript's `Infinity`/`NaN`. `totalCount` is taken to be a non-negative integer.
- JsText.ParseInt: numbers beyond 2^53 are exact integers here, where JavaScript rounds them to doubles. `-0` is 0.
- JsText.ToLowerAscii: only ASCII letters are lower-cased. This decides `sort.toLowerCase() === 'asc'` exactly as Unicode lower-casing does, because no other character lower-cases to "a", "s" or "c".
- QueryService.RoomCategory: `numar_camere` is taken to be an integer column, and `CAST(... AS VARCHAR)` renders it like `String(n)`. RoomCategoriesSortByCount is stated for non-negative counts only. Negative counts ("-1 Camere") do not sort by value.
- ResponseCache: only node-cache's behaviour as used here is modelled. An entry lives 600 s and is expired once the clock is strictly past its expiry. `has` and `get` delete an expired entry when they see it. The periodic expiry sweep only deletes entries that are already expired, so it changes no answer and is left out. Value cloning is implicit, since values are immutable.
- ResponseCache: concurrent requests are not modelled, so two misses racing to fill the same key are not covered. Each call happens at the time it is given.
- RelativeDate.Lower: only the mappings that can produce a character of "astăzi", "ieri", "acum" or "zile" are modelled. These are A-Z, "Ă" and "İ" (to "i" plus U+0307). Other characters are kept as they are, which changes no test result.
- RelativeDate.AcumMatchAt: `\d` is ASCII 0-9. Python's `\d` and `int()` also accept other Unicode decimal digits.
- RelativeDate.ConvertRelativeDate: the `OverflowError` for a result before year 1 is a distinct outcome. The scraper does not catch it. The rest of the scraper (fetching, HTML parsing, CSV and upload, istoric_scraper.py:29-110) is I/O and is not part of this model.
- The frontend is React UI and build configuration and is not part of this model.

## Findings

| source | as written | input that shows it | evidently intended | confidence | as-written member | corrected member |
|---|---|---|---|---|---|---|
| backend_api/server.js:97-98 | `has` and `get` read the clock separately, and the body of `get` is sent unchecked | entry stored at 0 ms, `has` at 600000 ms (still live), `get` at 600001 ms (expired): `res.json(undefined)` sends an empty 200 | a hit sends the cached body; a lookup that finds nothing runs the queries | low (a one-millisecond window; not executed) | ResponseCache.ClockRaceAsWritten | ResponseCache.Serve |
