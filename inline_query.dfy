/**
 * The query building that the plan-list and plan-history handlers each write
 * out inline. Their shape is the same:
 * - a `key:value` search, read as such only when it splits into exactly two pieces;
 * - a `date` parsed by the host and turned into a one-day range;
 * - a `sort` vocabulary matched after lowercasing, with its spaces kept;
 * - unclamped `page` and `limit` numbers.
 * The handlers differ only in their per-key rules, their free-text fields and
 * their date field, which are parameters here.
 */
module InlineQuery {
  import opened Wrappers
  import opened JsText
  import opened JsNumbers
  import opened LocalCalendar
  import opened RelativeDates
  import opened QueryPredicate
  import opened QueryProcessor
  import opened Pagination

  /** A handler's rule for one `key:value` search: the clause for the key, or nothing for a key it does not know or a value it rejects. */
  type KeyRule = (string, string) -> Option<Clause>

  /** The search is `key:value` when splitting it on `:` gives exactly two pieces. */
  predicate IsColonKeyValue(search: string) {
    |Split(search, ':')| == 2
  }

  function ColonKey(search: string): string
    requires IsColonKeyValue(search)
  {
    Trim(Split(search, ':')[0])
  }

  function ColonValue(search: string): string
    requires IsColonKeyValue(search)
  {
    Trim(Split(search, ':')[1])
  }

  /** The search step: the rule's clause on the key, or the raw text matched against each free-text field. */
  function ColonSearchStep(search: string, rule: KeyRule, orFields: seq<string>, p: Predicate): Predicate {
    if IsColonKeyValue(search) then
      match rule(ColonKey(search), ColonValue(search))
      case None => p
      case Some(c) => p.(fields := p.fields[ColonKey(search) := c])
    else
      p.(anyOf := Some(Alternatives(orFields, search)))
  }

  /** The date step: `new Date(date)` by the host, as a one-day range when it is valid. */
  function HostDateStep(dateFilter: string, dateField: string, parseDate: string -> Option<Time>, p: Predicate): Predicate {
    DayStep(parseDate(dateFilter), dateField, p).1
  }

  /** The sort vocabulary, matched against the lowercased text with its spaces. */
  function InlineRange(key: string, now: DateTime): Option<SortRange> {
    if key == "this month" then Some(LowerBound(MonthStart(now)))
    else if key == "last month" then Some(Closed(PreviousMonthStart(now), PreviousMonthEnd(now)))
    else if key == "last 6 months" then Some(LowerBound(MonthsBefore(now, 6)))
    else if key == "last one year" || key == "last 1 year" then Some(LowerBound(YearsBefore(now, 1)))
    else if key == "last 2 years" then Some(LowerBound(YearsBefore(now, 2)))
    else None
  }

  /** The sort step: a closed range replaces the field, a lower bound is merged in; `None` is a TypeError. */
  function InlineSortStep(sort: string, dateField: string, now: DateTime, p: Predicate): Option<Predicate> {
    match InlineRange(ToLower(sort), now)
    case None => Some(p)
    case Some(Closed(s, e)) => Some(p.(fields := p.fields[dateField := Range(s, e)]))
    case Some(LowerBound(s)) => WithLowerBound(p, dateField, s)
  }

  /** The filter the three steps build, in order; `None` when the sort step throws. */
  function InlineQueryOf(params: Params, rule: KeyRule, orFields: seq<string>, dateField: string,
                         parseDate: string -> Option<Time>, now: DateTime): Option<Predicate> {
    var search := Get(params, "search");
    var dateFilter := Get(params, "date");
    var sort := Get(params, "sort");
    var p1 := if Present(search) then ColonSearchStep(search.value, rule, orFields, Empty) else Empty;
    var p2 := if Present(dateFilter) then HostDateStep(dateFilter.value, dateField, parseDate, p1) else p1;
    if Present(sort) then InlineSortStep(sort.value, dateField, now, p2) else Some(p2)
  }

  /** `parseInt(searchParams.get("page") || "1")`, with no clamping. */
  function InlinePage(params: Params): Option<int> {
    ParseInt(GetOr(params, "page", "1"))
  }

  /** `parseInt(searchParams.get("limit") || "10")`, with no clamping. */
  function InlineLimit(params: Params): Option<int> {
    ParseInt(GetOr(params, "limit", "10"))
  }

  /** The echo of the raw text filters, `null` when absent or empty. */
  datatype RawFilters = RawFilters(search: Option<string>, dateFilter: Option<string>, sort: Option<string>)

  /** What is asked of the database: the filter, the page window, and the field sorted on, newest first. */
  datatype FindRequest = FindRequest(query: Predicate, skip: Option<int>, limit: Option<int>, sortNewestFirst: string)

  /** The handler's answer: the listing, or the 500 "Internal server error" of the outer `catch`. */
  datatype ListResponse =
    | Listed(find: FindRequest, pagination: PaginationMeta, filters: RawFilters)
    | InternalError

  /**
   * What the database makes of one listing request: the number of documents
   * the filter matches, or `None` when `find` or `countDocuments` throws (a
   * negative skip, a value the schema cannot cast, a malformed pattern).
   */
  type Database = FindRequest -> Option<nat>

  /** The request the handler sends to the database, or `None` when building the filter throws. */
  function InlineFind(params: Params, rule: KeyRule, orFields: seq<string>, dateField: string,
                      parseDate: string -> Option<Time>, now: DateTime): Option<FindRequest> {
    match InlineQueryOf(params, rule, orFields, dateField, parseDate, now)
    case None => None
    case Some(q) => Some(FindRequest(q, SkipCount(InlinePage(params), InlineLimit(params)), InlineLimit(params), dateField))
  }

  /**
   * The whole handler: the request, the database's answer to it, the
   * pagination metadata and the echo; a throw in either half reaches the
   * outer `catch`.
   */
  function InlineList(params: Params, rule: KeyRule, orFields: seq<string>, dateField: string,
                      parseDate: string -> Option<Time>, now: DateTime, database: Database): (r: ListResponse)
    ensures r.Listed? <==> InlineFind(params, rule, orFields, dateField, parseDate, now).Some?
                           && database(InlineFind(params, rule, orFields, dateField, parseDate, now).value).Some?
    ensures r.Listed? ==> && r.find.sortNewestFirst == dateField && r.find.limit == InlineLimit(params)
                          && database(r.find) == Some(r.pagination.total)
                          && r.pagination.page == InlinePage(params) && r.pagination.limit == InlineLimit(params)
  {
    match InlineFind(params, rule, orFields, dateField, parseDate, now)
    case None => InternalError
    case Some(find) =>
      match database(find)
      case None => InternalError
      case Some(total) =>
        Listed(find, GeneratePaginationMeta(total, InlinePage(params), InlineLimit(params)),
               RawFilters(OrNull(Get(params, "search")), OrNull(Get(params, "date")), OrNull(Get(params, "sort"))))
  }

  /** The search step, applied to the filter object in place. */
  method ApplyColonSearch(search: string, rule: KeyRule, orFields: seq<string>, q: MongoQuery)
    modifies q
    ensures q.Value() == ColonSearchStep(search, rule, orFields, old(q.Value()))
  {
    var parts := Split(search, ':');
    if |parts| == 2 {
      var key := Trim(parts[0]);
      var value := Trim(parts[1]);
      var c := rule(key, value);
      if c.Some? {
        q.Set(key, c.value);
      }
    } else {
      q.SetAnyOf(Alternatives(orFields, search));
    }
  }

  /** The date step, applied to the filter object in place. */
  method ApplyHostDate(dateFilter: string, dateField: string, parseDate: string -> Option<Time>, q: MongoQuery)
    modifies q
    ensures q.Value() == HostDateStep(dateFilter, dateField, parseDate, old(q.Value()))
  {
    var filterDate := parseDate(dateFilter);
    if filterDate.Some? {
      q.Set(dateField, Range(StartOfDay(filterDate.value), EndOfDay(filterDate.value)));
    }
  }

  /** The sort step, applied to the filter object in place; `thrown` is the TypeError, which leaves the object unchanged. */
  method ApplyInlineSort(sort: string, dateField: string, now: DateTime, q: MongoQuery) returns (thrown: bool)
    modifies q
    ensures thrown <==> InlineSortStep(sort, dateField, now, old(q.Value())).None?
    ensures !thrown ==> q.Value() == InlineSortStep(sort, dateField, now, old(q.Value())).value
    ensures thrown ==> q.Value() == old(q.Value())
  {
    match InlineRange(ToLower(sort), now) {
      case None =>
        thrown := false;
      case Some(Closed(s, e)) =>
        q.Set(dateField, Range(s, e));
        thrown := false;
      case Some(LowerBound(s)) =>
        thrown := q.SetLowerBound(dateField, s);
    }
  }

  /**
   * The filter half of the handler: one filter object built by the three
   * steps in order; `None` when the sort step throws its TypeError.
   */
  method BuildInlineFilter(params: Params, rule: KeyRule, orFields: seq<string>, dateField: string,
                           parseDate: string -> Option<Time>, now: DateTime)
    returns (query: Option<Predicate>)
    ensures query == InlineQueryOf(params, rule, orFields, dateField, parseDate, now)
  {
    var q := new MongoQuery();
    var search := Get(params, "search");
    if Present(search) {
      ApplyColonSearch(search.value, rule, orFields, q);
    }
    var dateFilter := Get(params, "date");
    if Present(dateFilter) {
      ApplyHostDate(dateFilter.value, dateField, parseDate, q);
    }
    var sort := Get(params, "sort");
    if Present(sort) {
      var thrown := ApplyInlineSort(sort.value, dateField, now, q);
      if thrown {
        return None;
      }
    }
    query := Some(q.Value());
  }

  /**
   * The handler body: the filter, the page window, the database's answer and
   * the reply. A TypeError in the sort step or a database error reaches the
   * outer `catch`.
   */
  method ListHandler(params: Params, rule: KeyRule, orFields: seq<string>, dateField: string,
                     parseDate: string -> Option<Time>, now: DateTime, database: Database)
    returns (r: ListResponse)
    ensures r == InlineList(params, rule, orFields, dateField, parseDate, now, database)
  {
    var page := InlinePage(params);
    var limit := InlineLimit(params);
    var skip := SkipCount(page, limit);
    var query := BuildInlineFilter(params, rule, orFields, dateField, parseDate, now);
    if query.None? {
      return InternalError;
    }
    var find := FindRequest(query.value, skip, limit, dateField);
    var total := database(find);
    if total.None? {
      return InternalError;
    }
    r := Listed(find, GeneratePaginationMeta(total.value, page, limit),
                RawFilters(OrNull(Get(params, "search")), OrNull(Get(params, "date")), OrNull(Get(params, "sort"))));
  }

  // ----- properties -----

  /** `k:v` with no further `:` is a key-value search on the trimmed pieces. */
  lemma ColonPieces(k: string, v: string)
    requires ':' !in k && ':' !in v
    ensures IsColonKeyValue(k + ":" + v)
    ensures ColonKey(k + ":" + v) == Trim(k) && ColonValue(k + ":" + v) == Trim(v)
  {
    assert k + ":" + v == k + [':'] + v;
    SplitConcat(k, v, ':');
    SplitNoSeparator(v, ':');
  }

  /** A `key:value` search sets the trimmed key to the rule's clause for the trimmed value, or changes nothing when the rule has none. */
  lemma KeyValueStep(k: string, v: string, rule: KeyRule, orFields: seq<string>, p: Predicate)
    requires ':' !in k && ':' !in v
    ensures var c := rule(Trim(k), Trim(v));
            ColonSearchStep(k + ":" + v, rule, orFields, p) == if c.Some? then p.(fields := p.fields[Trim(k) := c.value]) else p
  {
    ColonPieces(k, v);
  }

  /** A third piece makes the search free text, unlike the generic processor, which ignores it. */
  lemma ThreePiecesAreFreeText(k: string, v: string, w: string)
    requires ':' !in k && ':' !in v && ':' !in w
    ensures !IsColonKeyValue(k + ":" + v + ":" + w)
  {
    assert k + ":" + v + ":" + w == k + [':'] + (v + [':'] + w);
    SplitConcat(k, v + [':'] + w, ':');
    SplitConcat(v, w, ':');
    SplitNoSeparator(w, ':');
  }

  /** A search that is not `key:value` sets no field and matches the raw text against each free-text field, in order. */
  lemma ColonFreeText(search: string, rule: KeyRule, orFields: seq<string>, p: Predicate)
    requires !IsColonKeyValue(search)
    ensures var q := ColonSearchStep(search, rule, orFields, p);
            && q.fields == p.fields
            && q.anyOf.Some? && |q.anyOf.value| == |orFields|
            && forall i :: 0 <= i < |orFields| ==> q.anyOf.value[i] == Alternative(orFields[i], search)
  {
  }

  /** A valid host date sets the date field to exactly that day; an invalid one changes nothing. */
  lemma HostDateSelectsDay(dateFilter: string, dateField: string, parseDate: string -> Option<Time>, p: Predicate)
    ensures parseDate(dateFilter).None? ==> HostDateStep(dateFilter, dateField, parseDate, p) == p
    ensures parseDate(dateFilter).Some? ==>
              var t := parseDate(dateFilter).value;
              && HostDateStep(dateFilter, dateField, parseDate, p) == p.(fields := p.fields[dateField := Range(StartOfDay(t), EndOfDay(t))])
              && forall u :: StartOfDay(t) <= u <= EndOfDay(t) <==> Day(u) == Day(t)
  {
    if parseDate(dateFilter).Some? {
      var t := parseDate(dateFilter).value;
      forall u ensures StartOfDay(t) <= u <= EndOfDay(t) <==> Day(u) == Day(t) {
        DayRange(t, u);
      }
    }
  }

  /**
   * Every sort value these handlers recognise is recognised by the generic
   * processor with the same range, since removing its spaces gives one of
   * the generic keywords.
   */
  lemma InlineSortIsGenericSort(sort: string, now: DateTime)
    requires InlineRange(ToLower(sort), now).Some?
    ensures RelativeRange(SortKey(sort), now) == InlineRange(ToLower(sort), now)
  {
    var key := ToLower(sort);
    InlineRangesAreGeneric(now);
    if key == "this month" {
      ThisMonthSpaces(key);
    } else if key == "last month" {
      LastMonthSpaces(key);
    } else if key == "last 6 months" {
      LastSixMonthsSpaces(key);
    } else if key == "last one year" {
      LastOneYearSpaces(key);
    } else if key == "last 1 year" {
      LastOneYearDigitSpaces(key);
    } else {
      LastTwoYearsSpaces(key);
    }
  }

  /** Each keyword the handlers recognise gives the same range as the generic keyword spelt without spaces. */
  lemma InlineRangesAreGeneric(now: DateTime)
    ensures RelativeRange("thismonth", now) == InlineRange("this month", now)
    ensures RelativeRange("lastmonth", now) == InlineRange("last month", now)
    ensures RelativeRange("last6months", now) == InlineRange("last 6 months", now)
    ensures RelativeRange("lastoneyear", now) == InlineRange("last one year", now)
    ensures RelativeRange("last1year", now) == InlineRange("last 1 year", now)
    ensures RelativeRange("last2years", now) == InlineRange("last 2 years", now)
  {
    GenericMonthKeywords(now);
    GenericYearKeywords(now);
    InlineKeywords(now);
  }

  /** The ranges the generic processor gives the month keywords spelt without spaces. */
  lemma GenericMonthKeywords(now: DateTime)
    ensures RelativeRange("thismonth", now) == Some(LowerBound(MonthStart(now)))
    ensures RelativeRange("lastmonth", now) == Some(Closed(PreviousMonthStart(now), PreviousMonthEnd(now)))
    ensures RelativeRange("last6months", now) == Some(LowerBound(MonthsBefore(now, 6)))
  {
  }

  /** The ranges the generic processor gives the year keywords spelt without spaces. */
  lemma GenericYearKeywords(now: DateTime)
    ensures RelativeRange("lastoneyear", now) == Some(LowerBound(YearsBefore(now, 1)))
    ensures RelativeRange("last1year", now) == Some(LowerBound(YearsBefore(now, 1)))
    ensures RelativeRange("last2years", now) == Some(LowerBound(YearsBefore(now, 2)))
  {
  }

  /** The ranges these handlers give their own keywords. */
  lemma InlineKeywords(now: DateTime)
    ensures InlineRange("this month", now) == Some(LowerBound(MonthStart(now)))
    ensures InlineRange("last month", now) == Some(Closed(PreviousMonthStart(now), PreviousMonthEnd(now)))
    ensures InlineRange("last 6 months", now) == Some(LowerBound(MonthsBefore(now, 6)))
    ensures InlineRange("last one year", now) == Some(LowerBound(YearsBefore(now, 1)))
    ensures InlineRange("last 1 year", now) == Some(LowerBound(YearsBefore(now, 1)))
    ensures InlineRange("last 2 years", now) == Some(LowerBound(YearsBefore(now, 2)))
  {
  }

  // One lemma per keyword: each unfolds its own literal, which keeps every
  // proof small; they serve `InlineSortIsGenericSort` only.

  lemma ThisMonthSpaces(key: string)
    requires key == "this month"
    ensures RemoveSpaces(key) == "thismonth"
  {
    TwoWords(key, "this", "month");
  }

  lemma LastMonthSpaces(key: string)
    requires key == "last month"
    ensures RemoveSpaces(key) == "lastmonth"
  {
    TwoWords(key, "last", "month");
  }

  lemma LastSixMonthsSpaces(key: string)
    requires key == "last 6 months"
    ensures RemoveSpaces(key) == "last6months"
  {
    ThreeWords(key, "last", "6", "months");
  }

  lemma LastOneYearSpaces(key: string)
    requires key == "last one year"
    ensures RemoveSpaces(key) == "lastoneyear"
  {
    ThreeWords(key, "last", "one", "year");
  }

  lemma LastOneYearDigitSpaces(key: string)
    requires key == "last 1 year"
    ensures RemoveSpaces(key) == "last1year"
  {
    ThreeWords(key, "last", "1", "year");
  }

  lemma LastTwoYearsSpaces(key: string)
    requires key == "last 2 years"
    ensures RemoveSpaces(key) == "last2years"
  {
    ThreeWords(key, "last", "2", "years");
  }

  /** Two words joined by one space lose the space. */
  lemma TwoWords(key: string, a: string, b: string)
    requires key == a + " " + b && NoSpace(a) && NoSpace(b)
    ensures RemoveSpaces(key) == a + b
  {
    RemoveOneSpace(a, b);
    RemoveSpacesShape(b);
  }

  /** Three words joined by single spaces lose both spaces. */
  lemma ThreeWords(key: string, a: string, b: string, c: string)
    requires key == a + " " + b + " " + c && NoSpace(a) && NoSpace(b) && NoSpace(c)
    ensures RemoveSpaces(key) == a + b + c
  {
    assert key == a + " " + (b + " " + c);
    RemoveOneSpace(a, b + " " + c);
    RemoveOneSpace(b, c);
    RemoveSpacesShape(c);
  }

  lemma RemoveOneSpace(a: string, b: string)
    requires NoSpace(a)
    ensures RemoveSpaces(a + " " + b) == a + RemoveSpaces(b)
  {
    var sb := [' '] + b;
    assert a + " " + b == a + sb;
    RemoveSpacesConcat(a, sb);
    RemoveSpacesShape(a);
    RemoveSpacesConcat([' '], b);
    assert IsSpace(' ') && [' '][1..] == [];
    assert RemoveSpaces(sb) == RemoveSpaces(b);
  }

  /**
   * A sort value without a space, such as `lastmonth` or `last3months`, which
   * the generic processor accepts, changes nothing here: every keyword these
   * handlers know has a space in it.
   */
  lemma SpacelessSortIgnored(sort: string, dateField: string, now: DateTime, p: Predicate)
    requires ' ' !in sort
    ensures InlineSortStep(sort, dateField, now, p) == Some(p)
  {
    assert "this month"[4] == ' ' && "last month"[4] == ' ' && "last 6 months"[4] == ' ';
    assert "last one year"[4] == ' ' && "last 1 year"[4] == ' ' && "last 2 years"[4] == ' ';
  }

  /** "Last month" replaces whatever the date step put on the field with the closed previous-month range. */
  lemma LastMonthOverridesDate(sort: string, dateField: string, now: DateTime, p: Predicate)
    requires ToLower(sort) == "last month"
    ensures InlineSortStep(sort, dateField, now, p) == Some(p.(fields := p.fields[dateField := Range(PreviousMonthStart(now), PreviousMonthEnd(now))]))
  {
  }

  /** A lower-bound sort after a valid date overwrites the day's start and keeps its end. */
  lemma LowerBoundAfterDate(dateFilter: string, sort: string, dateField: string, parseDate: string -> Option<Time>,
                            now: DateTime, p: Predicate, start: Time)
    requires parseDate(dateFilter).Some?
    requires InlineRange(ToLower(sort), now) == Some(LowerBound(start))
    ensures var t := parseDate(dateFilter).value;
            InlineSortStep(sort, dateField, now, HostDateStep(dateFilter, dateField, parseDate, p))
              == Some(p.(fields := p.fields[dateField := Range(start, EndOfDay(t))]))
  {
    var t := parseDate(dateFilter).value;
    LowerBoundKeepsEnd(p, dateField, StartOfDay(t), EndOfDay(t), start);
  }

  /**
   * When the key rule never puts a clause on the date field, the date field
   * holds nothing or a range when the sort step runs, so building the filter
   * never throws: the handler answers 500 exactly when the database fails on
   * the request, and otherwise lists that request with the database's count.
   */
  lemma InlineFailsOnlyInDatabase(params: Params, rule: KeyRule, orFields: seq<string>, dateField: string,
                                  parseDate: string -> Option<Time>, now: DateTime, database: Database)
    requires forall v :: rule(dateField, v).None?
    ensures InlineFind(params, rule, orFields, dateField, parseDate, now).Some?
    ensures var find := InlineFind(params, rule, orFields, dateField, parseDate, now).value;
            var r := InlineList(params, rule, orFields, dateField, parseDate, now, database);
            && (r.Listed? <==> database(find).Some?)
            && (r.Listed? ==> r.find == find && r.pagination == GeneratePaginationMeta(database(find).value, InlinePage(params), InlineLimit(params)))
  {
    var search := Get(params, "search");
    var p1 := if Present(search) then ColonSearchStep(search.value, rule, orFields, Empty) else Empty;
    assert dateField !in p1.fields;
  }

  /** Page and limit are taken as written: page `n` and limit `l` give a skip of `(n - 1) * l`, negative for a page below 1. */
  lemma InlinePagination(params: Params, n: int, l: int)
    requires "page" in params && params["page"] == ShowInt(n)
    requires "limit" in params && params["limit"] == ShowInt(l)
    ensures InlinePage(params) == Some(n) && InlineLimit(params) == Some(l)
    ensures SkipCount(InlinePage(params), InlineLimit(params)) == Some((n - 1) * l)
  {
    ParseIntShowInt(n);
    ParseIntShowInt(l);
    assert ShowInt(n) != "" && ShowInt(l) != "";
  }

  /** Where the generic processor clamps, these handlers do not: a page below 1 or a limit outside 1..100 is used as written. */
  lemma UnclampedVersusClamped(params: Params, n: int, l: int)
    requires "page" in params && params["page"] == ShowInt(n)
    requires "limit" in params && params["limit"] == ShowInt(l)
    ensures InlinePage(params) == Some(n) && PageOf(params) == Some(if n < 1 then 1 else n)
    ensures InlineLimit(params) == Some(l) && LimitOf(params) == Some(if l < 1 then 1 else if l > 100 then 100 else l)
  {
    InlinePagination(params, n, l);
    PageClamped(params, n);
    LimitClamped(params, l);
  }

  /** The echo carries the raw texts, or `null` when absent or empty. */
  lemma InlineEcho(params: Params, rule: KeyRule, orFields: seq<string>, dateField: string,
                   parseDate: string -> Option<Time>, now: DateTime, database: Database)
    requires InlineList(params, rule, orFields, dateField, parseDate, now, database).Listed?
    ensures var f := InlineList(params, rule, orFields, dateField, parseDate, now, database).filters;
            && (f.search.Some? <==> "search" in params && params["search"] != "")
            && (f.search.Some? ==> f.search.value == params["search"])
            && (f.dateFilter.Some? <==> "date" in params && params["date"] != "")
            && (f.dateFilter.Some? ==> f.dateFilter.value == params["date"])
            && (f.sort.Some? <==> "sort" in params && params["sort"] != "")
            && (f.sort.Some? ==> f.sort.value == params["sort"])
  {
  }
}
