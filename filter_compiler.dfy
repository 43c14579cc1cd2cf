/**
 * The backend's filter compiler, `buildWhereClause`: from the loosely typed
 * query-string fields `search`, `rooms`, `priceRange[]` and `surfaceRange[]`
 * to a parameterised SQL predicate and its positional bind list.
 *
 * `Filters` says which predicates a request activates and in which order,
 * `Compile` what text and binds they make together, and the method
 * `BuildWhereClause` builds the same result the way the handler code does,
 * by pushing onto two growing lists.
 */
module FilterCompiler {
  import opened Wrappers
  import opened Numerals
  import opened JsText
  import opened SqlText

  /** A positional bind value: the search pattern is a string, every other bind a number. */
  datatype Bind = Text(text: string) | Number(number: int)

  /**
   * The request fields the compiler reads. `search` and `rooms` are single
   * strings; the ranges are the arrays the query parser makes of repeated
   * `priceRange[]` and `surfaceRange[]` fields. `None` is an absent field.
   */
  datatype QueryParams = QueryParams(
    search: Option<string>,
    rooms: Option<string>,
    priceRange: Option<seq<string>>,
    surfaceRange: Option<seq<string>>)

  /** The `{ clause, params }` object the compiler returns. */
  datatype CompiledFilter = CompiledFilter(clause: string, params: seq<Bind>)

  /** The two numeric ranges. */
  datatype Column = Price | Surface

  function ColumnName(c: Column): string {
    match c
    case Price => "pret"
    case Surface => "suprafata_mp"
  }

  /** The slider maximum of a range: an upper bound at or above it is no bound at all. */
  function SliderMax(c: Column): int {
    match c
    case Price => 500000
    case Surface => 200
  }

  function RangeOf(q: QueryParams, c: Column): Option<seq<string>> {
    match c
    case Price => q.priceRange
    case Surface => q.surfaceRange
  }

  /** The always-true first predicate, so that every later one can be joined with AND. */
  const Tautology: string := "1=1"
  const Separator: string := " AND "

  /** One active predicate of the WHERE clause. */
  datatype Filter =
    | TitleOrLocationLike(term: string)
    | RoomsEqual(rooms: int)
    | AtLeast(column: Column, bound: int)
    | AtMost(column: Column, bound: int)

  /** The SQL text of a predicate. */
  function Fragment(f: Filter): string {
    match f
    case TitleOrLocationLike(_) => "(titlu ILIKE " + Param + " OR locatie ILIKE " + Param + ")"
    case RoomsEqual(_) => "numar_camere = " + Param
    case AtLeast(c, _) => ColumnName(c) + " >= " + Param
    case AtMost(c, _) => ColumnName(c) + " <= " + Param
  }

  /** The values a predicate binds, in placeholder order; the search term is bound untrimmed, twice. */
  function Binds(f: Filter): seq<Bind> {
    match f
    case TitleOrLocationLike(t) => [Text("%" + t + "%"), Text("%" + t + "%")]
    case RoomsEqual(n) => [Number(n)]
    case AtLeast(_, n) => [Number(n)]
    case AtMost(_, n) => [Number(n)]
  }

  /** Position of each kind of predicate in the clause. */
  function Rank(f: Filter): nat {
    match f
    case TitleOrLocationLike(_) => 0
    case RoomsEqual(_) => 1
    case AtLeast(c, _) => if c == Price then 2 else 4
    case AtMost(c, _) => if c == Price then 3 else 5
  }

  /** Each predicate has as many placeholders as it binds values. */
  lemma FragmentPlaceholders(f: Filter)
    ensures Placeholders(Fragment(f)) == |Binds(f)|
  {
    match f
    case TitleOrLocationLike(_) => TwoPlaceholders("(titlu ILIKE ", " OR locatie ILIKE ", ")");
    case RoomsEqual(_) => OnePlaceholder("numar_camere = ");
    case AtLeast(c, _) =>
      OnePlaceholder(ColumnName(c) + " >= ");
    case AtMost(c, _) =>
      OnePlaceholder(ColumnName(c) + " <= ");
  }

  // ---- Which predicates a request activates ----

  /** `search && search.trim() !== ''`. */
  function SearchFilters(search: Option<string>): seq<Filter> {
    if search.Some? && search.value != "" && Trim(search.value) != "" then [TitleOrLocationLike(search.value)] else []
  }

  /** `rooms && rooms.trim() !== '' && !isNaN(parseInt(rooms))`; the bind is the parsed number. */
  function RoomsFilters(rooms: Option<string>): seq<Filter> {
    if rooms.Some? && rooms.value != "" && Trim(rooms.value) != "" && ParseInt(rooms.value, Unspecified).Some?
    then [RoomsEqual(ParseInt(rooms.value, Unspecified).value)]
    else []
  }

  /** A range is read only when it is an array of exactly two elements. */
  predicate IsPair(range: Option<seq<string>>) {
    range.Some? && |range.value| == 2
  }

  /** The lower bound a range contributes: its first element parsed in base 10, when positive. */
  function LowerBound(range: Option<seq<string>>): Option<int> {
    if !IsPair(range) then None
    else match ParseInt(range.value[0], Ten)
      case Some(n) => if n > 0 then Some(n) else None
      case None => None
  }

  /** The upper bound a range contributes: its second element parsed in base 10, when below the slider maximum. */
  function UpperBound(range: Option<seq<string>>, sliderMax: int): Option<int> {
    if !IsPair(range) then None
    else match ParseInt(range.value[1], Ten)
      case Some(n) => if n < sliderMax then Some(n) else None
      case None => None
  }

  /** The predicates one range adds: its lower bound, then its upper bound, each only when present. */
  function RangeFilters(range: Option<seq<string>>, c: Column): seq<Filter> {
    (if LowerBound(range).Some? then [AtLeast(c, LowerBound(range).value)] else [])
    + (if UpperBound(range, SliderMax(c)).Some? then [AtMost(c, UpperBound(range, SliderMax(c)).value)] else [])
  }

  /** The active predicates of a request, in clause order. */
  function Filters(q: QueryParams): seq<Filter> {
    SearchFilters(q.search) + RoomsFilters(q.rooms) + RangeFilters(q.priceRange, Price) + RangeFilters(q.surfaceRange, Surface)
  }

  // ---- The text and binds they make ----

  function Fragments(fs: seq<Filter>): seq<string> {
    if fs == [] then [] else [Fragment(fs[0])] + Fragments(fs[1..])
  }

  function AllBinds(fs: seq<Filter>): seq<Bind> {
    if fs == [] then [] else Binds(fs[0]) + AllBinds(fs[1..])
  }

  lemma {:induction false} FragmentsAppend(a: seq<Filter>, b: seq<Filter>)
    ensures Fragments(a + b) == Fragments(a) + Fragments(b)
    ensures AllBinds(a + b) == AllBinds(a) + AllBinds(b)
  {
    if a != [] {
      assert (a + b)[1..] == a[1..] + b;
      FragmentsAppend(a[1..], b);
    } else {
      assert a + b == b;
    }
  }

  /** Appending one predicate appends its fragment and its binds. */
  lemma Push(active: seq<Filter>, f: Filter)
    ensures Fragments(active + [f]) == Fragments(active) + [Fragment(f)]
    ensures AllBinds(active + [f]) == AllBinds(active) + Binds(f)
  {
    FragmentsAppend(active, [f]);
    assert Fragments([f]) == [Fragment(f)];
    assert AllBinds([f]) == Binds(f);
  }

  lemma {:induction false} FragmentsPlaceholders(fs: seq<Filter>)
    ensures TotalPlaceholders(Fragments(fs)) == |AllBinds(fs)|
  {
    if fs != [] {
      FragmentPlaceholders(fs[0]);
      FragmentsPlaceholders(fs[1..]);
      assert Fragments(fs)[1..] == Fragments(fs[1..]);
    }
  }

  /** Pushing the fragments and binds of `added` keeps the lists in step with the predicates. */
  lemma Extend(whereClauses: seq<string>, params: seq<Bind>, active: seq<Filter>, added: seq<Filter>)
    requires whereClauses == [Tautology] + Fragments(active) && params == AllBinds(active)
    ensures whereClauses + Fragments(added) == [Tautology] + Fragments(active + added)
    ensures params + AllBinds(added) == AllBinds(active + added)
  {
    FragmentsAppend(active, added);
    assert whereClauses + Fragments(added) == [Tautology] + (Fragments(active) + Fragments(added));
  }

  /** "WHERE " and the predicates `fs` behind the tautology, joined with " AND ". */
  function WhereClause(fs: seq<Filter>): string {
    "WHERE " + Join([Tautology] + Fragments(fs), Separator)
  }

  /** What `buildWhereClause` returns for a request. */
  function Compile(q: QueryParams): CompiledFilter {
    CompiledFilter(WhereClause(Filters(q)), AllBinds(Filters(q)))
  }

  /** The number of `?` placeholders in the clause equals the number of binds. */
  lemma ClausePlaceholders(fs: seq<Filter>)
    ensures Placeholders(WhereClause(fs)) == |AllBinds(fs)|
  {
    var parts := [Tautology] + Fragments(fs);
    PlaceholdersAppend("WHERE ", Join(parts, Separator));
    NoPlaceholders("WHERE ");
    NoPlaceholders(Separator);
    JoinPlaceholders(parts, Separator);
    TotalPlaceholdersAppend([Tautology], Fragments(fs));
    NoPlaceholders(Tautology);
    assert TotalPlaceholders([Tautology]) == Placeholders(Tautology);
    FragmentsPlaceholders(fs);
  }

  /**
   * The clause always starts with "WHERE 1=1"; with no predicate it is
   * exactly that and there are no binds, otherwise the predicates follow,
   * joined with " AND ", and there are binds.
   */
  lemma ClauseShape(fs: seq<Filter>)
    ensures "WHERE 1=1" <= WhereClause(fs)
    ensures fs == [] ==> WhereClause(fs) == "WHERE 1=1" && AllBinds(fs) == []
    ensures fs != [] ==> WhereClause(fs) == "WHERE 1=1" + Separator + Join(Fragments(fs), Separator) && AllBinds(fs) != []
  {
    if fs == [] {
      ClauseOfNoFilters();
    } else {
      ClauseOfFilters(fs);
      PrefixOfAppend("WHERE 1=1", Separator + Join(Fragments(fs), Separator));
    }
  }

  lemma PrefixOfAppend(x: string, y: string)
    ensures x <= x + (y)
  {
    assert (x + y)[..|x|] == x;
  }

  lemma ClauseOfNoFilters()
    ensures WhereClause([]) == "WHERE 1=1" && AllBinds([]) == []
  {
    assert [Tautology] + Fragments([]) == [Tautology];
  }

  lemma ClauseOfFilters(fs: seq<Filter>)
    requires fs != []
    ensures WhereClause(fs) == "WHERE 1=1" + Separator + Join(Fragments(fs), Separator) && AllBinds(fs) != []
  {
    assert Binds(fs[0]) != [];
    assert Fragments(fs) != [];
    JoinHead(Tautology, Fragments(fs), Separator);
    var j := Join(Fragments(fs), Separator);
    assert "WHERE " + (Tautology + Separator + j) == ("WHERE " + Tautology) + Separator + j;
  }

  // ---- The compiler itself ----

  /**
   * `buildWhereClause` as the handlers run it: start from `["1=1"]` and no
   * binds, push one fragment (and its binds) per active filter, then join
   * with " AND " behind "WHERE ".
   */
  method BuildWhereClause(q: QueryParams) returns (r: CompiledFilter)
    ensures r == Compile(q)
    ensures Placeholders(r.clause) == |r.params|
    ensures "WHERE 1=1" <= r.clause
    ensures r.clause == "WHERE 1=1" <==> r.params == []
  {
    var whereClauses := [Tautology];
    var params: seq<Bind> := [];
    // the predicates pushed so far
    ghost var active: seq<Filter> := [];

    if q.search.Some? && q.search.value != "" && Trim(q.search.value) != "" {
      var search := q.search.value;
      Push(active, TitleOrLocationLike(search));
      whereClauses := whereClauses + ["(titlu ILIKE " + Param + " OR locatie ILIKE " + Param + ")"];
      params := params + [Text("%" + search + "%"), Text("%" + search + "%")];
      active := active + [TitleOrLocationLike(search)];
    }
    assert active == SearchFilters(q.search);
    assert whereClauses == [Tautology] + Fragments(active) && params == AllBinds(active);

    ghost var before := active;
    if q.rooms.Some? && q.rooms.value != "" && Trim(q.rooms.value) != "" && ParseInt(q.rooms.value, Unspecified).Some? {
      var rooms := ParseInt(q.rooms.value, Unspecified).value;
      Push(active, RoomsEqual(rooms));
      whereClauses := whereClauses + ["numar_camere = " + Param];
      params := params + [Number(rooms)];
      active := active + [RoomsEqual(rooms)];
    }
    assert active == before + RoomsFilters(q.rooms);
    assert whereClauses == [Tautology] + Fragments(active) && params == AllBinds(active);

    ghost var price := RangeFilters(q.priceRange, Price);
    Extend(whereClauses, params, active, price);
    whereClauses, params := PushRangeBounds(whereClauses, params, q.priceRange, Price);
    active := active + price;

    ghost var surface := RangeFilters(q.surfaceRange, Surface);
    Extend(whereClauses, params, active, surface);
    whereClauses, params := PushRangeBounds(whereClauses, params, q.surfaceRange, Surface);
    active := active + surface;
    assert active == Filters(q);

    r := CompiledFilter("WHERE " + Join(whereClauses, Separator), params);
    ClausePlaceholders(active);
    ClauseShape(active);
  }

  /**
   * One range block of `buildWhereClause` (the price and the surface blocks
   * are the same code with a different column and slider maximum): for a
   * two-element array, push "<column> >= ?" when the first element parses
   * to a positive number and "<column> <= ?" when the second parses to a
   * number below the slider maximum.
   */
  method PushRangeBounds(whereClauses: seq<string>, params: seq<Bind>, range: Option<seq<string>>, c: Column)
    returns (clauses: seq<string>, binds: seq<Bind>)
    ensures clauses == whereClauses + Fragments(RangeFilters(range, c))
    ensures binds == params + AllBinds(RangeFilters(range, c))
  {
    clauses, binds := whereClauses, params;
    ghost var active: seq<Filter> := [];
    if range.Some? && |range.value| == 2 {
      var min := ParseInt(range.value[0], Ten);
      var max := ParseInt(range.value[1], Ten);
      if min.Some? && min.value > 0 {
        Push(active, AtLeast(c, min.value));
        clauses := clauses + [ColumnName(c) + " >= " + Param];
        binds := binds + [Number(min.value)];
        active := active + [AtLeast(c, min.value)];
      }
      assert active == (if LowerBound(range).Some? then [AtLeast(c, LowerBound(range).value)] else []);
      assert clauses == whereClauses + Fragments(active) && binds == params + AllBinds(active);
      if max.Some? && max.value < SliderMax(c) {
        Push(active, AtMost(c, max.value));
        clauses := clauses + [ColumnName(c) + " <= " + Param];
        binds := binds + [Number(max.value)];
        active := active + [AtMost(c, max.value)];
      }
    }
    assert active == RangeFilters(range, c);
  }

  // ---- What the compiler promises ----

  /** Predicates whose ranks strictly increase along the list. */
  predicate Ascending(fs: seq<Filter>) {
    forall i, j :: 0 <= i < j < |fs| ==> Rank(fs[i]) < Rank(fs[j])
  }

  predicate RanksWithin(fs: seq<Filter>, lo: nat, hi: nat) {
    forall i :: 0 <= i < |fs| ==> lo <= Rank(fs[i]) <= hi
  }

  lemma AscendingAppend(a: seq<Filter>, b: seq<Filter>, lo: nat, mid: nat, hi: nat)
    requires lo <= mid <= hi
    requires Ascending(a) && RanksWithin(a, lo, mid)
    requires Ascending(b) && RanksWithin(b, mid + 1, hi)
    ensures Ascending(a + b) && RanksWithin(a + b, lo, hi)
  {
    var ab := a + b;
    forall i, j | 0 <= i < j < |ab| ensures Rank(ab[i]) < Rank(ab[j]) {
      if j < |a| {
        assert ab[i] == a[i] && ab[j] == a[j];
      } else if i >= |a| {
        assert ab[i] == b[i - |a|] && ab[j] == b[j - |a|];
      } else {
        assert ab[i] == a[i] && ab[j] == b[j - |a|];
      }
    }
    forall i | 0 <= i < |ab| ensures lo <= Rank(ab[i]) <= hi {
      if i < |a| { assert ab[i] == a[i]; } else { assert ab[i] == b[i - |a|]; }
    }
  }

  /**
   * Predicates come in one fixed order (search, rooms, price minimum, price
   * maximum, surface minimum, surface maximum) whatever the order of the
   * query-string fields, and no kind appears twice.
   */
  lemma FiltersInClauseOrder(q: QueryParams)
    ensures forall i, j :: 0 <= i < j < |Filters(q)| ==> Rank(Filters(q)[i]) < Rank(Filters(q)[j])
  {
    var search, rooms := SearchFilters(q.search), RoomsFilters(q.rooms);
    var price, surface := RangeFilters(q.priceRange, Price), RangeFilters(q.surfaceRange, Surface);
    PartsRanked(q);
    AscendingAppend(search, rooms, 0, 0, 1);
    AscendingAppend(search + rooms, price, 0, 1, 3);
    AscendingAppend(search + rooms + price, surface, 0, 3, 5);
  }

  lemma PartsRanked(q: QueryParams)
    ensures Ascending(SearchFilters(q.search)) && RanksWithin(SearchFilters(q.search), 0, 0)
    ensures Ascending(RoomsFilters(q.rooms)) && RanksWithin(RoomsFilters(q.rooms), 1, 1)
    ensures Ascending(RangeFilters(q.priceRange, Price)) && RanksWithin(RangeFilters(q.priceRange, Price), 2, 3)
    ensures Ascending(RangeFilters(q.surfaceRange, Surface)) && RanksWithin(RangeFilters(q.surfaceRange, Surface), 4, 5)
  {
    SearchRanked(q.search);
    RoomsRanked(q.rooms);
    RangeRanked(q.priceRange, Price);
    RangeRanked(q.surfaceRange, Surface);
  }

  lemma SearchRanked(search: Option<string>)
    ensures Ascending(SearchFilters(search)) && RanksWithin(SearchFilters(search), 0, 0)
  {
  }

  lemma RoomsRanked(rooms: Option<string>)
    ensures Ascending(RoomsFilters(rooms)) && RanksWithin(RoomsFilters(rooms), 1, 1)
  {
  }

  lemma RangeRanked(range: Option<seq<string>>, c: Column)
    ensures var lo := if c == Price then 2 else 4;
      Ascending(RangeFilters(range, c)) && RanksWithin(RangeFilters(range, c), lo, lo + 1)
  {
  }

  /** Only the search block makes a search predicate, only the rooms block a rooms predicate. */
  lemma KindsOfParts(q: QueryParams)
    ensures forall f :: f in SearchFilters(q.search) ==> f.TitleOrLocationLike?
    ensures forall f :: f in RoomsFilters(q.rooms) ==> f.RoomsEqual?
    ensures forall f :: f in RangeFilters(q.priceRange, Price) ==> (f.AtLeast? || f.AtMost?) && f.column == Price
    ensures forall f :: f in RangeFilters(q.surfaceRange, Surface) ==> (f.AtLeast? || f.AtMost?) && f.column == Surface
  {
  }

  /**
   * The search predicate is present exactly when `search` is given and has
   * a character that is not whitespace; it matches the text as given,
   * untrimmed.
   */
  lemma SearchFilterIff(q: QueryParams, term: string)
    ensures TitleOrLocationLike(term) in Filters(q) <==> q.search == Some(term) && !IsBlank(term)
  {
    KindsOfParts(q);
    if q.search.Some? {
      TrimEmptyIffBlank(q.search.value);
    }
  }

  /**
   * A search adds the first two binds, both the pattern "%" + term + "%"
   * built from the term as given, surrounding whitespace and all.
   */
  lemma SearchBindsFirst(q: QueryParams)
    requires q.search.Some? && !IsBlank(q.search.value)
    ensures var p := Compile(q).params; var pattern := Text("%" + q.search.value + "%");
      |p| >= 2 && p[0] == pattern && p[1] == pattern
  {
    TrimEmptyIffBlank(q.search.value);
    var rest := RoomsFilters(q.rooms) + RangeFilters(q.priceRange, Price) + RangeFilters(q.surfaceRange, Surface);
    assert Filters(q) == [TitleOrLocationLike(q.search.value)] + rest;
    LeadingBinds(TitleOrLocationLike(q.search.value), rest);
  }

  lemma LeadingBinds(f: Filter, rest: seq<Filter>)
    ensures AllBinds([f] + rest) == Binds(f) + AllBinds(rest)
  {
    assert ([f] + rest)[1..] == rest;
  }

  /**
   * The rooms predicate is present exactly when `rooms` is given and
   * `parseInt` reads a number from it, and binds that number; the blank test
   * in front of `parseInt` changes nothing, as a blank string parses to NaN.
   */
  lemma RoomsFilterIff(q: QueryParams, n: int)
    ensures RoomsEqual(n) in Filters(q) <==> q.rooms.Some? && ParseInt(q.rooms.value, Unspecified) == Some(n)
  {
    KindsOfParts(q);
    if q.rooms.Some? {
      TrimEmptyIffBlank(q.rooms.value);
      if IsBlank(q.rooms.value) {
        ParseIntOfBlank(q.rooms.value, Unspecified);
      }
    }
  }

  lemma RangePart(q: QueryParams, c: Column)
    ensures forall f :: f in Filters(q) && f.AtLeast? && f.column == c ==> f in RangeFilters(RangeOf(q, c), c)
    ensures forall f :: f in Filters(q) && f.AtMost? && f.column == c ==> f in RangeFilters(RangeOf(q, c), c)
    ensures forall f :: f in RangeFilters(RangeOf(q, c), c) ==> f in Filters(q)
  {
    KindsOfParts(q);
  }

  /**
   * A range's lower-bound predicate is present exactly when the range is a
   * two-element array whose first element parses (base 10) to a positive
   * number, and binds that number.
   */
  lemma LowerBoundIff(q: QueryParams, c: Column, n: int)
    ensures AtLeast(c, n) in Filters(q)
      <==> IsPair(RangeOf(q, c)) && ParseInt(RangeOf(q, c).value[0], Ten) == Some(n) && n > 0
  {
    RangePart(q, c);
    KindsOfParts(q);
  }

  /**
   * A range's upper-bound predicate is present exactly when the range is a
   * two-element array whose second element parses (base 10) to a number
   * below the slider maximum, and binds that number.
   */
  lemma UpperBoundIff(q: QueryParams, c: Column, n: int)
    ensures AtMost(c, n) in Filters(q)
      <==> IsPair(RangeOf(q, c)) && ParseInt(RangeOf(q, c).value[1], Ten) == Some(n) && n < SliderMax(c)
  {
    RangePart(q, c);
    KindsOfParts(q);
  }

  /**
   * Bounds at the slider ends (a minimum of 0 or less, a maximum at or
   * above the slider maximum) add no predicate: the UI's default range
   * [0, 500000] filters nothing.
   */
  lemma SentinelBoundsAddNothing(range: Option<seq<string>>, c: Column, lo: int, hi: int)
    requires range == Some([IntToString(lo), IntToString(hi)])
    requires lo <= 0 && hi >= SliderMax(c)
    ensures RangeFilters(range, c) == []
  {
    ParseIntOfIntToString(lo, "", Ten);
    ParseIntOfIntToString(hi, "", Ten);
    assert IntToString(lo) + "" == IntToString(lo) && IntToString(hi) + "" == IntToString(hi);
  }

  /**
   * Bounds strictly inside the slider add both predicates, minimum first,
   * binding the parsed numbers in that order.
   */
  lemma InteriorBoundsAddBoth(range: Option<seq<string>>, c: Column, lo: int, hi: int)
    requires range == Some([IntToString(lo), IntToString(hi)])
    requires 0 < lo && hi < SliderMax(c)
    ensures RangeFilters(range, c) == [AtLeast(c, lo), AtMost(c, hi)]
    ensures AllBinds(RangeFilters(range, c)) == [Number(lo), Number(hi)]
  {
    ParseIntOfIntToString(lo, "", Ten);
    ParseIntOfIntToString(hi, "", Ten);
    assert IntToString(lo) + "" == IntToString(lo) && IntToString(hi) + "" == IntToString(hi);
    assert AllBinds([AtMost(c, hi)]) == [Number(hi)];
  }

  /**
   * The two ends of a range are judged separately: a first element that is
   * not a number does not cancel the upper bound.
   */
  lemma BoundsAreIndependent(range: Option<seq<string>>, c: Column, junk: string, hi: int)
    requires range == Some([junk, IntToString(hi)])
    requires ParseInt(junk, Ten) == None && hi < SliderMax(c)
    ensures RangeFilters(range, c) == [AtMost(c, hi)]
  {
    ParseIntOfIntToString(hi, "", Ten);
    assert IntToString(hi) + "" == IntToString(hi);
  }

  /** With none of the four fields the clause is exactly "WHERE 1=1" and nothing is bound. */
  lemma NoFiltersExample()
    ensures Compile(QueryParams(None, None, None, None)) == CompiledFilter("WHERE 1=1", [])
  {
    ClauseShape([]);
  }

  /** A room count and an interior price range, as the client sends them, give three predicates in clause order. */
  lemma RoomsAndPriceExample(n: int, lo: int, hi: int)
    requires 0 < lo && hi < SliderMax(Price)
    ensures Compile(QueryParams(None, Some(IntToString(n)), Some([IntToString(lo), IntToString(hi)]), None))
      == CompiledFilter("WHERE 1=1 AND numar_camere = ? AND pret >= ? AND pret <= ?", [Number(n), Number(lo), Number(hi)])
  {
    var q := QueryParams(None, Some(IntToString(n)), Some([IntToString(lo), IntToString(hi)]), None);
    var fs := [RoomsEqual(n), AtLeast(Price, lo), AtMost(Price, hi)];
    RoomsAndPriceFilters(q, n, lo, hi);
    ExampleClause(fs, n, lo, hi);
    ExampleBinds(fs, n, lo, hi);
  }

  lemma RoomsAndPriceFilters(q: QueryParams, n: int, lo: int, hi: int)
    requires q == QueryParams(None, Some(IntToString(n)), Some([IntToString(lo), IntToString(hi)]), None)
    requires 0 < lo && hi < SliderMax(Price)
    ensures Filters(q) == [RoomsEqual(n), AtLeast(Price, lo), AtMost(Price, hi)]
  {
    RoomsOfIntToString(n);
    InteriorBoundsAddBoth(q.priceRange, Price, lo, hi);
    assert Filters(q) == [RoomsEqual(n)] + [AtLeast(Price, lo), AtMost(Price, hi)];
  }

  /** A decimal room count, as the client sends it, becomes one equality on that count. */
  lemma RoomsOfIntToString(n: int)
    ensures RoomsFilters(Some(IntToString(n))) == [RoomsEqual(n)]
  {
    var s := IntToString(n);
    ParseIntOfIntToString(n, "", Unspecified);
    assert s + "" == s;
    TrimEmptyIffBlank(s);
    assert !IsWhitespace(s[|s| - 1]);
  }

  lemma ExampleBinds(fs: seq<Filter>, n: int, lo: int, hi: int)
    requires fs == [RoomsEqual(n), AtLeast(Price, lo), AtMost(Price, hi)]
    ensures AllBinds(fs) == [Number(n), Number(lo), Number(hi)]
  {
    assert fs[1..][1..][1..] == [];
    assert AllBinds(fs[1..][1..]) == [Number(hi)];
    assert AllBinds(fs[1..]) == [Number(lo), Number(hi)];
  }

  lemma ExampleClause(fs: seq<Filter>, n: int, lo: int, hi: int)
    requires fs == [RoomsEqual(n), AtLeast(Price, lo), AtMost(Price, hi)]
    ensures WhereClause(fs) == "WHERE 1=1 AND numar_camere = ? AND pret >= ? AND pret <= ?"
  {
    var a := "numar_camere = " + Param;
    var b := "pret" + " >= " + Param;
    var c := "pret" + " <= " + Param;
    ExampleFragments(fs, n, lo, hi);
    ClauseOfFilters(fs);
    ExampleJoin(a, b, c);
    ExampleText(a, b, c);
  }

  lemma ExampleFragments(fs: seq<Filter>, n: int, lo: int, hi: int)
    requires fs == [RoomsEqual(n), AtLeast(Price, lo), AtMost(Price, hi)]
    ensures Fragments(fs) == ["numar_camere = " + Param, "pret" + " >= " + Param, "pret" + " <= " + Param]
  {
    assert fs[1..][1..][1..] == [];
    assert Fragments(fs[1..][1..]) == ["pret" + " <= " + Param];
  }

  lemma ExampleJoin(a: string, b: string, c: string)
    ensures Join([a, b, c], Separator) == a + Separator + b + Separator + c
  {
    assert [a, b, c][1..] == [b, c];
    assert [b, c][1..] == [c];
    assert Join([c], Separator) == c;
    assert Join([b, c], Separator) == b + Separator + c;
    assert a + Separator + (b + Separator + c) == a + Separator + b + Separator + c;
  }

  lemma ExampleText(a: string, b: string, c: string)
    requires a == "numar_camere = ?" && b == "pret >= ?" && c == "pret <= ?"
    ensures "WHERE 1=1" + Separator + (a + Separator + b + Separator + c)
      == "WHERE 1=1 AND numar_camere = ? AND pret >= ? AND pret <= ?"
  {
    assert "WHERE 1=1" + Separator + (a + Separator + b + Separator + c)
      == "WHERE 1=1" + Separator + a + Separator + b + Separator + c;
    assert "WHERE 1=1" + Separator == "WHERE 1=1 AND ";
    assert "WHERE 1=1 AND " + a == "WHERE 1=1 AND numar_camere = ?";
    assert "WHERE 1=1 AND numar_camere = ?" + Separator == "WHERE 1=1 AND numar_camere = ? AND ";
    assert "WHERE 1=1 AND numar_camere = ? AND " + b == "WHERE 1=1 AND numar_camere = ? AND pret >= ?";
    assert "WHERE 1=1 AND numar_camere = ? AND pret >= ?" + Separator
        == "WHERE 1=1 AND numar_camere = ? AND pret >= ? AND ";
    assert "WHERE 1=1 AND numar_camere = ? AND pret >= ? AND " + c
        == "WHERE 1=1 AND numar_camere = ? AND pret >= ? AND pret <= ?";
  }

}
