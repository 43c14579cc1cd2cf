/**
 * The parameter arithmetic of the backend's HTTP handlers: the pagination of
 * `/api/listings`, the sort and limit of `/api/stats/avg_price_by_district`,
 * the statements both send with their positional binds, and the room-count
 * labels of `/api/stats/distribution_by_rooms`.
 *
 * Each handler compiles the request's filter first (`FilterCompiler.Compile`,
 * which the method `BuildWhereClause` computes) and splices its clause into a
 * fixed statement; the lemmas here show that the placeholders of every
 * statement line up with its binds.
 */
module QueryService {
  import opened Wrappers
  import opened Numerals
  import opened JsText
  import opened SqlText
  import opened FilterCompiler

  /** A statement as it is sent: SQL text and its positional binds. */
  datatype Statement = Statement(text: string, binds: seq<Bind>)

  /** Every `?` of the text has exactly one bind. */
  predicate Aligned(st: Statement) {
    Placeholders(st.text) == |st.binds|
  }

  // ---- /api/listings ----

  const DefaultPage: int := 1
  const DefaultPageSize: int := 15

  /** `parseInt(x, 10)` of a pagination field, with the destructuring default when it is absent. */
  function PageArgument(arg: Option<string>, default: int): Option<int> {
    match arg
    case None => Some(default)
    case Some(s) => ParseInt(s, Ten)
  }

  /** How many rows precede the first row of `page`. */
  function Offset(page: int, pageSize: int): int {
    (page - 1) * pageSize
  }

  // The fixed SQL text is written as short literal pieces only so that the
  // placeholder-free lemmas stay cheap to prove; the pieces join to one string.
  const ListingsSelect: string :=
    "SELECT titlu, locatie, " + "pret, suprafata_mp, " + "pret_pe_mp, link, " + "data_postare, numar_camere " + "FROM dim_listings "

  /** The order clause and the `LIMIT` keyword; `ListingsTail` adds the two pagination placeholders. */
  const ListingsOrder: string := " ORDER BY data_postare DESC, pret DESC" + " LIMIT "

  const ListingsTail: string := ListingsOrder + Param + " OFFSET " + Param + ";"

  /** The row statement: the filter, the fixed order, then `LIMIT ? OFFSET ?`. */
  function ListingsText(clause: string): string {
    ListingsSelect + clause + ListingsTail
  }

  const CountSelect: string := "SELECT COUNT(*) AS total_count " + "FROM dim_listings "

  /** The count statement: the same filter, no pagination. */
  function CountText(clause: string): string {
    CountSelect + clause + ";"
  }

  /** What the listings handler sends for one request, and the page it reports back. */
  datatype ListingsPlan = ListingsPlan(rows: Statement, count: Statement, currentPage: int, pageSize: int)

  /**
   * The statements of `/api/listings`. `None` when `page` or `pageSize` is
   * not numeric: the handler then computes with `NaN`, which is not modelled.
   */
  function PlanListings(q: QueryParams, page: Option<string>, pageSize: Option<string>): Option<ListingsPlan> {
    var p := PageArgument(page, DefaultPage);
    var s := PageArgument(pageSize, DefaultPageSize);
    if p.None? || s.None? then None
    else
      var f := Compile(q);
      Some(ListingsPlan(
        Statement(ListingsText(f.clause), f.params + [Number(s.value), Number(Offset(p.value, s.value))]),
        Statement(CountText(f.clause), f.params),
        p.value, s.value))
  }

  /**
   * `Math.ceil(totalCount / pageSize)`. `None` when `pageSize` is 0 (an
   * infinite or `NaN` quotient). Otherwise the least integer at or above the
   * quotient, stated without division for both signs of `pageSize`.
   */
  function TotalPages(total: nat, pageSize: int): (r: Option<int>)
    ensures r.None? <==> pageSize == 0
  {
    if pageSize == 0 then None
    else if pageSize > 0 then Some((total + pageSize - 1) / pageSize)
    else Some(0 - total / (0 - pageSize))
  }

  /** `TotalPages` is the ceiling of the quotient: the least integer at or above it, for either sign of `pageSize`. */
  lemma TotalPagesIsCeiling(total: nat, pageSize: int)
    requires pageSize != 0
    ensures var r := TotalPages(total, pageSize).value;
      if pageSize > 0 then (r - 1) * pageSize < total <= r * pageSize
      else r * pageSize <= total < (r - 1) * pageSize
  {
    var r := TotalPages(total, pageSize).value;
    if pageSize > 0 {
      CeilingBounds(total, pageSize);
    } else {
      var d := 0 - pageSize;
      var k := total / d;
      FloorBounds(total, d);
      assert r == 0 - k;
      assert r * pageSize == k * d;
      assert (r - 1) * pageSize == (k + 1) * d;
    }
  }

  lemma CeilingBounds(total: nat, d: int)
    requires d > 0
    ensures var k := (total + d - 1) / d; (k - 1) * d < total <= k * d
  {
    var k := (total + d - 1) / d;
    var m := (total + d - 1) % d;
    assert total + d - 1 == k * d + m;
    assert (k - 1) * d == k * d - d;
  }

  lemma FloorBounds(total: nat, d: int)
    requires d > 0
    ensures var k := total / d; k * d <= total < (k + 1) * d
  {
    var k := total / d;
    assert total == k * d + total % d;
    assert (k + 1) * d == k * d + d;
  }

  // ---- Properties of the listings handler ----

  /**
   * Both statements carry the compiled filter's binds; the row statement adds
   * the page size and the offset, in that order, for its `LIMIT ? OFFSET ?`.
   * In both, placeholders and binds line up.
   */
  lemma ListingsStatementsAligned(q: QueryParams, page: Option<string>, pageSize: Option<string>)
    requires PlanListings(q, page, pageSize).Some?
    ensures var plan := PlanListings(q, page, pageSize).value;
      && plan.count.binds == Compile(q).params
      && plan.rows.binds == plan.count.binds + [Number(plan.pageSize), Number(Offset(plan.currentPage, plan.pageSize))]
      && Aligned(plan.rows) && Aligned(plan.count)
  {
    var f := Compile(q);
    CompilePlaceholders(q);
    ListingsTextPlaceholders(f.clause);
    CountTextPlaceholders(f.clause);
  }

  /** The compiled filter is aligned on its own. */
  lemma CompilePlaceholders(q: QueryParams)
    ensures Placeholders(Compile(q).clause) == |Compile(q).params|
  {
    ClausePlaceholders(Filters(q));
  }

  lemma ListingsTextPlaceholders(clause: string)
    ensures Placeholders(ListingsText(clause)) == Placeholders(clause) + 2
  {
    ListingsFixedText();
    TwoPlaceholders(ListingsOrder, " OFFSET ", ";");
    Spliced(ListingsSelect, clause, ListingsTail);
  }

  /** The fixed parts of the row statement have no placeholder. */
  lemma ListingsFixedText()
    ensures HasNoParam(ListingsSelect) && HasNoParam(ListingsOrder)
  {
    var a, b, c, d, e := "SELECT titlu, locatie, ", "pret, suprafata_mp, ", "pret_pe_mp, link, ", "data_postare, numar_camere ", "FROM dim_listings ";
    assert HasNoParam(a) && HasNoParam(b) && HasNoParam(c) && HasNoParam(d) && HasNoParam(e);
    NoParamAppend(a, b);
    NoParamAppend(a + b, c);
    NoParamAppend(a + b + c, d);
    NoParamAppend(a + b + c + d, e);
    assert HasNoParam(" ORDER BY data_postare DESC, pret DESC");
    NoParamAppend(" ORDER BY data_postare DESC, pret DESC", " LIMIT ");
  }

  lemma CountTextPlaceholders(clause: string)
    ensures Placeholders(CountText(clause)) == Placeholders(clause)
  {
    assert HasNoParam(CountSelect) by {
      NoParamAppend("SELECT COUNT(*) AS total_count ", "FROM dim_listings ");
    }
    NoPlaceholders(CountSelect);
    NoPlaceholders(";");
    PlaceholdersAppend(CountSelect, clause);
    PlaceholdersAppend(CountSelect + clause, ";");
  }

  /** Absent fields give page 1 of 15 rows: offset 0. */
  lemma DefaultPagination(q: QueryParams)
    ensures var plan := PlanListings(q, None, None);
      plan.Some? && plan.value.currentPage == 1 && plan.value.pageSize == 15
      && Offset(plan.value.currentPage, plan.value.pageSize) == 0
  {
  }

  /** A decimal page number and page size are read back exactly. */
  lemma PaginationReadsDecimals(q: QueryParams, page: int, pageSize: int)
    ensures var plan := PlanListings(q, Some(IntToString(page)), Some(IntToString(pageSize)));
      plan.Some? && plan.value.currentPage == page && plan.value.pageSize == pageSize
  {
    ParseIntOfIntToString(page, "", Ten);
    ParseIntOfIntToString(pageSize, "", Ten);
    assert IntToString(page) + "" == IntToString(page);
    assert IntToString(pageSize) + "" == IntToString(pageSize);
  }

  /** Consecutive pages start `pageSize` rows apart. */
  lemma {:induction false} NextPageOffset(page: int, pageSize: int)
    ensures Offset(page + 1, pageSize) == Offset(page, pageSize) + pageSize
  {
    assert page * pageSize == (page - 1) * pageSize + pageSize;
  }

  /** With a positive page size, every row index lies on exactly one page from 1 on. */
  lemma RowOnOnePage(row: nat, pageSize: int)
    requires pageSize > 0
    ensures var p := row / pageSize + 1;
      p >= 1 && Offset(p, pageSize) <= row < Offset(p, pageSize) + pageSize
    ensures forall p :: Offset(p, pageSize) <= row < Offset(p, pageSize) + pageSize ==> p == row / pageSize + 1
  {
    var k := row / pageSize;
    FloorBounds(row, pageSize);
    assert Offset(k + 1, pageSize) == k * pageSize;
    forall p | Offset(p, pageSize) <= row < Offset(p, pageSize) + pageSize
      ensures p == k + 1
    {
      NextPageOffset(p, pageSize);
      if p < k + 1 {
        MoreRowsOnLaterPages(p + 1, k + 1, pageSize);
      } else if p > k + 1 {
        MoreRowsOnLaterPages(k + 2, p, pageSize);
        NextPageOffset(k + 1, pageSize);
      }
    }
  }

  /** Offsets grow by at least a page from one page to any later one. */
  lemma MoreRowsOnLaterPages(a: int, b: int, pageSize: int)
    requires a <= b && pageSize > 0
    ensures Offset(a, pageSize) <= Offset(b, pageSize)
  {
    assert (b - 1) * pageSize - (a - 1) * pageSize == (b - a) * pageSize;
  }

  /**
   * With a positive page size and at least one row, the last page
   * `totalPages` holds at least one row and every row is on some page up to
   * it; a page beyond it starts past the last row, so its listing is empty.
   */
  lemma LastPageHoldsTheLastRow(total: nat, pageSize: int)
    requires pageSize > 0 && total > 0
    ensures var last := TotalPages(total, pageSize).value;
      last >= 1 && Offset(last, pageSize) < total <= Offset(last, pageSize) + pageSize
  {
    var last := TotalPages(total, pageSize).value;
    assert Offset(last, pageSize) + pageSize == last * pageSize by { NextPageOffset(last - 1, pageSize); }
  }

  lemma PageBeyondTotalIsEmpty(total: nat, pageSize: int, page: int)
    requires pageSize > 0 && page > TotalPages(total, pageSize).value
    ensures Offset(page, pageSize) >= total
  {
    var last := TotalPages(total, pageSize).value;
    MoreRowsOnLaterPages(last + 1, page, pageSize);
    NextPageOffset(last, pageSize);
  }

  // ---- /api/stats/avg_price_by_district ----

  /** `sort.toLowerCase() === 'asc' ? 'ASC' : 'DESC'`, with `sort` defaulting to "desc". */
  function SortOrder(sort: Option<string>): (r: string)
    ensures r == "ASC" || r == "DESC"
  {
    if ToLowerAscii(sort.GetOr("desc")) == "asc" then "ASC" else "DESC"
  }

  /** "asc" in any mix of upper and lower case. */
  predicate SpellsAsc(s: string) {
    |s| == 3 && (s[0] == 'a' || s[0] == 'A') && (s[1] == 's' || s[1] == 'S') && (s[2] == 'c' || s[2] == 'C')
  }

  /** `!isNaN(parseInt(limit)) ? parseInt(limit) : 10`, with `limit` defaulting to 10. */
  function LimitCount(limit: Option<string>): int {
    match limit
    case None => 10
    case Some(s) => ParseInt(s, Unspecified).GetOr(10)
  }

  // Short literal pieces again, for the same reason as `ListingsSelect`.
  const DistrictSelect: string :=
    "SELECT SPLIT_PART(locatie, ',', 2) " + "AS district, " + "ROUND(AVG(pret_pe_mp), 0) " + "AS avg_price_sqm " + "FROM dim_listings "
  const DistrictGroup: string :=
    " AND district IS NOT NULL" + " AND pret_pe_mp IS NOT NULL" + " GROUP BY district" + " ORDER BY avg_price_sqm "

  function DistrictTail(order: string): string {
    DistrictGroup + order + " LIMIT " + Param + ";"
  }

  /** The district statement: the filter narrowed to known districts, grouped, ordered by `order`, limited by a bind. */
  function DistrictText(clause: string, order: string): string {
    DistrictSelect + clause + DistrictTail(order)
  }

  function PlanDistricts(q: QueryParams, sort: Option<string>, limit: Option<string>): Statement {
    var f := Compile(q);
    Statement(DistrictText(f.clause, SortOrder(sort)), f.params + [Number(LimitCount(limit))])
  }

  // ---- Properties of the district handler ----

  /** The order is ascending exactly when `sort` is "asc" up to case; absent means descending. */
  lemma SortOrderIff(sort: Option<string>)
    ensures SortOrder(sort) == "ASC" <==> sort.Some? && SpellsAsc(sort.value)
  {
    var s := sort.GetOr("desc");
    var t := ToLowerAscii(s);
    if |s| == 3 {
      assert t == [t[0], t[1], t[2]];
      assert t[0] == (if 'A' <= s[0] <= 'Z' then (s[0] as int + 32) as char else s[0]);
      assert t[1..] == ToLowerAscii(s[1..]);
      assert t[1] == (if 'A' <= s[1] <= 'Z' then (s[1] as int + 32) as char else s[1]);
      assert t[2..] == ToLowerAscii(s[2..]);
      assert t[2] == (if 'A' <= s[2] <= 'Z' then (s[2] as int + 32) as char else s[2]);
    }
    if sort.None? {
      assert ToLowerAscii("desc")[0] == 'd';
    }
  }

  /**
   * A decimal limit, possibly followed by text that starts with no digit, is
   * read back exactly; after a lone 0 that text must not start with "x" or
   * "X", which would make a hexadecimal prefix.
   */
  lemma LimitReadsDecimal(n: int, rest: string)
    requires rest == [] || !IsDecimalDigit(rest[0])
    requires n != 0 || rest == [] || (rest[0] != 'x' && rest[0] != 'X')
    ensures LimitCount(Some(IntToString(n) + rest)) == n
  {
    ParseIntOfIntToString(n, rest, Unspecified);
  }

  /** A limit with no leading digits falls back to 10. */
  lemma LimitDefaultsWhenNotNumeric(s: string)
    requires ParseInt(s, Unspecified).None?
    ensures LimitCount(Some(s)) == 10
  {
  }

  /** `parseInt` without a radix reads "0x1f" in base 16. */
  lemma LimitReadsHex()
    ensures LimitCount(Some("0x1f")) == 31
  {
    var u := "0x1f";
    assert TrimStart(u) == u;
    assert Unsigned(u) == u;
    assert HasHexPrefix(u, Unspecified);
    assert u[2..] == "1f";
    assert DigitRun("1f", 16) == "1f" by {
      assert "1f"[1..] == "f";
      assert DigitRun("f", 16) == "f" by { assert "f"[1..] == []; }
    }
    assert Value("1f", 16) == 31 by {
      assert "1f"[..1] == "1";
      assert Value("1", 16) == 1 by { assert "1"[..0] == []; }
    }
  }

  /**
   * The district statement binds the filter's values and then the limit;
   * its placeholders line up whatever the sort, which only ever contributes
   * the keyword "ASC" or "DESC" to the text.
   */
  lemma DistrictStatementAligned(q: QueryParams, sort: Option<string>, limit: Option<string>)
    ensures PlanDistricts(q, sort, limit).binds == Compile(q).params + [Number(LimitCount(limit))]
    ensures Aligned(PlanDistricts(q, sort, limit))
  {
    var f := Compile(q);
    var order := SortOrder(sort);
    CompilePlaceholders(q);
    assert HasNoParam(order);
    DistrictTextPlaceholders(f.clause, order);
  }

  lemma DistrictTextPlaceholders(clause: string, order: string)
    requires HasNoParam(order)
    ensures Placeholders(DistrictText(clause, order)) == Placeholders(clause) + 1
  {
    DistrictFixedText();
    DistrictTailPlaceholders(order);
    Spliced(DistrictSelect, clause, DistrictTail(order));
  }

  lemma DistrictTailPlaceholders(order: string)
    requires HasNoParam(order)
    ensures Placeholders(DistrictTail(order)) == 1
  {
    DistrictFixedText();
    NoParamAppend(DistrictGroup, order);
    NoParamAppend(DistrictGroup + order, " LIMIT ");
    var head := DistrictGroup + order + " LIMIT ";
    OnePlaceholder(head);
    NoPlaceholders(";");
    PlaceholdersAppend(head + Param, ";");
  }

  /** The fixed parts of the district statement have no placeholder. */
  lemma DistrictFixedText()
    ensures HasNoParam(DistrictSelect) && HasNoParam(DistrictGroup)
  {
    var a, b, c, d, e := "SELECT SPLIT_PART(locatie, ',', 2) ", "AS district, ", "ROUND(AVG(pret_pe_mp), 0) ", "AS avg_price_sqm ", "FROM dim_listings ";
    assert HasNoParam(a) && HasNoParam(b) && HasNoParam(c) && HasNoParam(d) && HasNoParam(e);
    NoParamAppend(a, b);
    NoParamAppend(a + b, c);
    NoParamAppend(a + b + c, d);
    NoParamAppend(a + b + c + d, e);
    var f, g, h, i := " AND district IS NOT NULL", " AND pret_pe_mp IS NOT NULL", " GROUP BY district", " ORDER BY avg_price_sqm ";
    assert HasNoParam(f) && HasNoParam(g) && HasNoParam(h) && HasNoParam(i);
    NoParamAppend(f, g);
    NoParamAppend(f + g, h);
    NoParamAppend(f + g + h, i);
  }

  // ---- /api/stats/distribution_by_rooms ----

  /** The `CASE` that labels a room count. */
  function RoomCategory(n: int): string {
    if n == 1 then "1 Camera (Garsoniera)"
    else if n >= 5 then "5+ Camere"
    else IntToString(n) + " Camere"
  }

  /** Code-point order on strings, as `ORDER BY room_category` sorts the labels. */
  predicate LexLess(a: string, b: string) {
    if a == [] then b != []
    else b != [] && (a[0] < b[0] || (a[0] == b[0] && LexLess(a[1..], b[1..])))
  }

  // ---- Properties of the room labels ----

  lemma RoomCategoryExample()
    ensures RoomCategory(1) == "1 Camera (Garsoniera)"
    ensures RoomCategory(2) == "2 Camere"
    ensures RoomCategory(5) == "5+ Camere" && RoomCategory(7) == "5+ Camere"
  {
    assert IntToString(2) == "2";
  }

  /** Two counts share a label exactly when they are equal or both at least 5. */
  lemma RoomCategorySameIff(a: int, b: int)
    ensures RoomCategory(a) == RoomCategory(b) <==> a == b || (a >= 5 && b >= 5)
  {
    if RoomCategory(a) == RoomCategory(b) && a != b {
      if a < 5 && a != 1 { DecimalLabel(a, b); }
      else if b < 5 && b != 1 { DecimalLabel(b, a); }
    }
  }

  /** A decimal label "n Camere" is no other count's label. */
  lemma DecimalLabel(a: int, b: int)
    requires a < 5 && a != 1 && RoomCategory(a) == RoomCategory(b)
    ensures a == b
  {
    var s := IntToString(a) + " Camere";
    assert s[0] == IntToString(a)[0] && (s[0] == '-' <==> a < 0);
    assert s[|IntToString(a)|] == ' ';
    assert s[|s| - 1] == 'e';
    if b != 1 && b < 5 {
      var t := IntToString(b);
      assert s == t + " Camere";
      assert IntToString(a) == s[..|s| - 7] == t;
      ParseIntOfIntToString(a, "", Ten);
      ParseIntOfIntToString(b, "", Ten);
      assert IntToString(a) + "" == IntToString(a);
      assert t + "" == t;
      assert Some(a) == ParseInt(IntToString(a), Ten) == ParseInt(t, Ten) == Some(b);
    }
  }

  /**
   * For non-negative counts the label order agrees with the count order: a
   * smaller count's label sorts first unless both counts share "5+ Camere".
   * In particular "2 Camere" sorts before "5+ Camere".
   */
  lemma RoomCategoriesSortByCount(a: int, b: int)
    requires 0 <= a < b && a < 5
    ensures LexLess(RoomCategory(a), RoomCategory(b))
  {
    LeadingDigit(a);
    LeadingDigit(b);
  }

  /** A non-negative count's label starts with the digit of the count capped at 5. */
  lemma LeadingDigit(n: int)
    requires n >= 0
    ensures RoomCategory(n) != [] && RoomCategory(n)[0] == DigitChar(if n < 5 then n else 5)
  {
    if n != 1 && n < 5 {
      assert IntToString(n) == [DigitChar(n)];
    }
  }
}
