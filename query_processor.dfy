/**
 * The generic list-query processor: from the query parameters of a list
 * request it computes clamped pagination numbers, the MongoDB filter (built in
 * place by the search, date and sort steps, in that order) and an echo of the
 * filters applied.
 */
module QueryProcessor {
  import opened Wrappers
  import opened JsText
  import opened JsNumbers
  import opened LocalCalendar
  import opened RelativeDates
  import opened QueryPredicate

  /**
   * Host conversions the processor calls but this model does not define:
   * `Number(s)`, `parseFloat(s)` and `new Date(s)` for a free-form date
   * string; `None` stands for NaN or an invalid date.
   */
  datatype HostParsers = HostParsers(
    number: string -> Option<real>,
    parseFloat: string -> Option<real>,
    parseDate: string -> Option<Time>)

  /** The query string: each name present maps to its (first) value. */
  type Params = map<string, string>

  datatype PaginationOptions = PaginationOptions(page: Option<int>, limit: Option<int>, skip: Option<int>)
  datatype SearchOptions = SearchOptions(field: Option<string>, value: Option<string>, isKeyValue: bool, originalQuery: string)
  datatype DateFilterOptions = DateFilterOptions(startDate: Option<Time>, endDate: Option<Time>)
  datatype SortOptions = SortOptions(dateRange: Option<DateFilterOptions>, sortType: string)
  datatype Filters = Filters(search: Option<string>, dateFilter: Option<string>, sort: Option<string>, page: Option<int>, limit: Option<int>)
  datatype ProcessedQuery = ProcessedQuery(
    pagination: PaginationOptions,
    query: Predicate,
    searchOptions: Option<SearchOptions>,
    sortOptions: Option<SortOptions>,
    dateFilter: Option<DateFilterOptions>,
    filters: Filters)

  /** `searchParams.get(name)`: `None` stands for `null`. */
  function Get(params: Params, name: string): Option<string> {
    if name in params then Some(params[name]) else None
  }

  /** A parameter that is present and not empty, which is what `if (param)` tests. */
  predicate Present(v: Option<string>) {
    v.Some? && v.value != ""
  }

  /** `param || null` */
  function OrNull(v: Option<string>): (r: Option<string>)
    ensures r.Some? <==> Present(v)
    ensures r.Some? ==> r == v
  {
    if Present(v) then v else None
  }

  /** `searchParams.get(name) || fallback` */
  function GetOr(params: Params, name: string, fallback: string): string {
    if Present(Get(params, name)) then params[name] else fallback
  }

  /** `Math.max(1, parseInt(searchParams.get("page") || "1"))` */
  function PageOf(params: Params): Option<int> {
    Max(Some(1), ParseInt(GetOr(params, "page", "1")))
  }

  /** `Math.max(1, Math.min(100, parseInt(searchParams.get("limit") || "10")))` */
  function LimitOf(params: Params): Option<int> {
    Max(Some(1), Min(Some(100), ParseInt(GetOr(params, "limit", "10"))))
  }

  function Pagination(params: Params): PaginationOptions {
    var page := PageOf(params);
    var limit := LimitOf(params);
    PaginationOptions(page, limit, SkipCount(page, limit))
  }

  // ----- search -----

  /** The value stored for a `key=value` search on a searchable field: a regex unless the value is numeric. */
  function KeyClause(value: string, host: HostParsers): Clause {
    if host.number(value).None? then Regex(value)
    else match host.parseFloat(value)
      case Some(n) => NumEq(n)
      case None => Regex(value)
  }

  /** The key of a `key=value` search: the first `=`-piece, trimmed. */
  function SearchKey(search: string): string {
    Trim(Split(search, '=')[0])
  }

  /** The value of a `key=value` search: the second `=`-piece, trimmed; later pieces are ignored. */
  function SearchValue(search: string): string
    requires '=' in search
  {
    SplitCountsSeparator(search, '=');
    Trim(Split(search, '=')[1])
  }

  /** The search is read as `key=value` when it has an `=` and both trimmed pieces are non-empty. */
  predicate IsKeyValueSearch(search: string) {
    '=' in search && SearchKey(search) != "" && SearchValue(search) != ""
  }

  /** What the search step reports and the filter it leaves. */
  function SearchStep(search: string, fields: seq<string>, host: HostParsers, p: Predicate): (SearchOptions, Predicate) {
    if IsKeyValueSearch(search) then
      var key := SearchKey(search);
      var value := SearchValue(search);
      var q := if key in fields then p.(fields := p.fields[key := KeyClause(value, host)]) else p;
      (SearchOptions(Some(key), Some(value), true, search), q)
    else
      var q := if |fields| > 0 then p.(anyOf := Some(Alternatives(fields, search))) else p;
      (SearchOptions(None, None, false, search), q)
  }

  // ----- date -----

  /** The date string is read as DD-MM-YYYY when it has a `-` and its first `-`-piece has at most two characters. */
  predicate IsDayMonthYear(s: string) {
    '-' in s && |Split(s, '-')[0]| <= 2
  }

  /**
   * The day the date filter names: `new Date(parseInt(year), parseInt(month) - 1, parseInt(day))`
   * for DD-MM-YYYY (a missing or non-numeric piece makes it invalid), the
   * host's `new Date(s)` otherwise; `None` is an invalid date.
   */
  function FilterDate(s: string, parseDate: string -> Option<Time>): Option<Time> {
    if IsDayMonthYear(s) then
      SplitCountsSeparator(s, '-');
      DayMonthYearDate(Split(s, '-'))
    else
      parseDate(s)
  }

  /** `new Date(parseInt(year), parseInt(month) - 1, parseInt(day))` from the pieces `[day, month, year, ...]`. */
  function DayMonthYearDate(parts: seq<string>): Option<Time>
    requires |parts| >= 2
  {
    DateOf(ParseInt(parts[0]), ParseInt(parts[1]), if |parts| >= 3 then ParseInt(parts[2]) else None)
  }

  /** `new Date(year, month - 1, day)` from the three parsed pieces; NaN in any of them makes the date invalid. */
  function DateOf(day: Option<int>, month: Option<int>, year: Option<int>): Option<Time> {
    if day.Some? && month.Some? && year.Some? then Some(NewDate(year.value, month.value - 1, day.value))
    else None
  }

  /** The date step: the day the filter names, as a range on the date field. */
  function DateStep(dateFilter: string, dateField: string, parseDate: string -> Option<Time>, p: Predicate): (DateFilterOptions, Predicate) {
    DayStep(FilterDate(dateFilter, parseDate), dateField, p)
  }

  /** A valid date `t` sets the field to `[StartOfDay(t), EndOfDay(t)]`; an invalid one changes nothing and reports `{}`. */
  function DayStep(date: Option<Time>, dateField: string, p: Predicate): (DateFilterOptions, Predicate) {
    match date
    case None => (DateFilterOptions(None, None), p)
    case Some(t) =>
      var start := StartOfDay(t);
      var end := EndOfDay(t);
      (DateFilterOptions(Some(start), Some(end)), p.(fields := p.fields[dateField := Range(start, end)]))
  }

  // ----- sort -----

  /** `sort.toLowerCase().replace(/\s+/g, "")` */
  function SortKey(sort: string): string {
    RemoveSpaces(ToLower(sort))
  }

  /** The range each recognised sort keyword selects, relative to `now`. */
  function RelativeRange(key: string, now: DateTime): Option<SortRange> {
    if key == "lastweek" || key == "last1week" then Some(LowerBound(DaysBefore(now, 7)))
    else if key == "thismonth" then Some(LowerBound(MonthStart(now)))
    else if key == "lastmonth" || key == "last1month" then Some(Closed(PreviousMonthStart(now), PreviousMonthEnd(now)))
    else if key == "last3months" then Some(LowerBound(MonthsBefore(now, 3)))
    else if key == "last6months" then Some(LowerBound(MonthsBefore(now, 6)))
    else if key == "lastyear" || key == "last1year" || key == "lastoneyear" then Some(LowerBound(YearsBefore(now, 1)))
    else if key == "last2years" || key == "last2year" then Some(LowerBound(YearsBefore(now, 2)))
    else if key == "last5years" || key == "last5year" then Some(LowerBound(YearsBefore(now, 5)))
    else None
  }

  /** What the sort step reports and the filter it leaves; `None` is the TypeError of a lower bound set on a number. */
  function SortStep(sort: string, dateField: string, now: DateTime, p: Predicate): Option<(SortOptions, Predicate)> {
    match RelativeRange(SortKey(sort), now)
    case None => Some((SortOptions(None, sort), p))
    case Some(Closed(s, e)) =>
      Some((SortOptions(Some(DateFilterOptions(Some(s), Some(e))), sort), p.(fields := p.fields[dateField := Range(s, e)])))
    case Some(LowerBound(s)) =>
      match WithLowerBound(p, dateField, s)
      case None => None
      case Some(q) => Some((SortOptions(Some(DateFilterOptions(Some(s), None)), sort), q))
  }

  // ----- the whole request -----

  /** The search step when the `search` parameter is present and non-empty; the filter starts empty. */
  function SearchPhase(search: Option<string>, fields: seq<string>, host: HostParsers): (Option<SearchOptions>, Predicate) {
    if Present(search) then
      var r := SearchStep(search.value, fields, host, Empty);
      (Some(r.0), r.1)
    else (None, Empty)
  }

  /** The date step when the `date` parameter is present and non-empty. */
  function DatePhase(dateFilter: Option<string>, dateField: string, parseDate: string -> Option<Time>, p: Predicate): (Option<DateFilterOptions>, Predicate) {
    if Present(dateFilter) then
      var r := DateStep(dateFilter.value, dateField, parseDate, p);
      (Some(r.0), r.1)
    else (None, p)
  }

  /** The sort step when the `sort` parameter is present and non-empty; `None` is the TypeError. */
  function SortPhase(sort: Option<string>, dateField: string, now: DateTime, p: Predicate): Option<(Option<SortOptions>, Predicate)> {
    if Present(sort) then
      match SortStep(sort.value, dateField, now, p)
      case None => None
      case Some(r) => Some((Some(r.0), r.1))
    else Some((None, p))
  }

  /** The processed query, or `None` when the sort step throws. */
  function Process(params: Params, fields: seq<string>, dateField: string, host: HostParsers, now: DateTime): (r: Option<ProcessedQuery>)
    ensures r.Some? ==> var pg := r.value.pagination;
              && (pg.page.Some? ==> pg.page.value >= 1)
              && (pg.limit.Some? ==> 1 <= pg.limit.value <= 100)
              && (pg.skip.Some? ==> pg.skip.value >= 0)
              && r.value.filters.page == pg.page && r.value.filters.limit == pg.limit
    ensures r.None? ==> Present(Get(params, "sort"))
  {
    var pagination := Pagination(params);
    var search := Get(params, "search");
    var dateFilter := Get(params, "date");
    var sort := Get(params, "sort");
    var s := SearchPhase(search, fields, host);
    var d := DatePhase(dateFilter, dateField, host.parseDate, s.1);
    match SortPhase(sort, dateField, now, d.1)
    case None => None
    case Some(r) =>
      Some(ProcessedQuery(pagination, r.1, s.0, r.0, d.0,
        Filters(OrNull(search), OrNull(dateFilter), OrNull(sort), pagination.page, pagination.limit)))
  }

  /** The search step, applied to the filter object in place. */
  method ProcessSearchQuery(search: string, fields: seq<string>, host: HostParsers, q: MongoQuery) returns (opts: SearchOptions)
    modifies q
    ensures (opts, q.Value()) == SearchStep(search, fields, host, old(q.Value()))
  {
    if '=' in search {
      var key := SearchKey(search);
      var value := SearchValue(search);
      if key != "" && value != "" {
        if key in fields {
          if host.number(value).None? {
            q.Set(key, Regex(value));
          } else {
            var n := host.parseFloat(value);
            if n.Some? {
              q.Set(key, NumEq(n.value));
            } else {
              q.Set(key, Regex(value));
            }
          }
        }
        return SearchOptions(Some(key), Some(value), true, search);
      }
    }
    if |fields| > 0 {
      q.SetAnyOf(Alternatives(fields, search));
    }
    opts := SearchOptions(None, None, false, search);
  }

  /** The date step, applied to the filter object in place. */
  method ProcessDateFilter(dateFilter: string, dateField: string, parseDate: string -> Option<Time>, q: MongoQuery) returns (opts: DateFilterOptions)
    modifies q
    ensures (opts, q.Value()) == DateStep(dateFilter, dateField, parseDate, old(q.Value()))
  {
    var filterDate := FilterDate(dateFilter, parseDate);
    if filterDate.Some? {
      var start := StartOfDay(filterDate.value);
      var end := EndOfDay(filterDate.value);
      q.Set(dateField, Range(start, end));
      return DateFilterOptions(Some(start), Some(end));
    }
    opts := DateFilterOptions(None, None);
  }

  /** The sort step, applied to the filter object in place; `None` is the TypeError, which leaves the object unchanged. */
  method ProcessSortFilter(sort: string, dateField: string, now: DateTime, q: MongoQuery) returns (opts: Option<SortOptions>)
    modifies q
    ensures SortStep(sort, dateField, now, old(q.Value())).None? ==> opts.None? && q.Value() == old(q.Value())
    ensures SortStep(sort, dateField, now, old(q.Value())).Some? ==>
              (opts, q.Value()) == (Some(SortStep(sort, dateField, now, old(q.Value())).value.0), SortStep(sort, dateField, now, old(q.Value())).value.1)
  {
    var range := RelativeRange(SortKey(sort), now);
    match range {
      case None =>
        opts := Some(SortOptions(None, sort));
      case Some(Closed(s, e)) =>
        q.Set(dateField, Range(s, e));
        opts := Some(SortOptions(Some(DateFilterOptions(Some(s), Some(e))), sort));
      case Some(LowerBound(s)) =>
        var thrown := q.SetLowerBound(dateField, s);
        if thrown {
          opts := None;
        } else {
          opts := Some(SortOptions(Some(DateFilterOptions(Some(s), None)), sort));
        }
    }
  }

  /** `processQueryParameters`: one filter object threaded through the three steps, in order. */
  method ProcessQueryParameters(params: Params, fields: seq<string>, dateField: string, host: HostParsers, now: DateTime)
    returns (r: Option<ProcessedQuery>)
    ensures r == Process(params, fields, dateField, host, now)
  {
    var pagination := Pagination(params);
    var q := new MongoQuery();
    var search := Get(params, "search");
    var searchOptions: Option<SearchOptions> := None;
    if Present(search) {
      var o := ProcessSearchQuery(search.value, fields, host, q);
      searchOptions := Some(o);
    }
    var dateFilter := Get(params, "date");
    var dateOptions: Option<DateFilterOptions> := None;
    if Present(dateFilter) {
      var o := ProcessDateFilter(dateFilter.value, dateField, host.parseDate, q);
      dateOptions := Some(o);
    }
    var sort := Get(params, "sort");
    var sortOptions: Option<SortOptions> := None;
    if Present(sort) {
      var o := ProcessSortFilter(sort.value, dateField, now, q);
      if o.None? {
        return None;
      }
      sortOptions := o;
    }
    r := Some(ProcessedQuery(pagination, q.Value(), searchOptions, sortOptions, dateOptions,
      Filters(OrNull(search), OrNull(dateFilter), OrNull(sort), pagination.page, pagination.limit)));
  }

  // ----- properties -----

  /** With no `page` and no `limit` parameter the request is page 1 of 10 items, skipping none. */
  lemma PaginationDefaults(params: Params)
    requires "page" !in params && "limit" !in params
    ensures Pagination(params) == PaginationOptions(Some(1), Some(10), Some(0))
  {
    assert GetOr(params, "page", "1") == "1" && GetOr(params, "limit", "10") == "10";
    ReadDefaults();
    ClampToLimit(10);
    assert PageOf(params) == Some(1) && LimitOf(params) == Some(10);
  }

  /** The fallback texts read as 1 and 10. */
  lemma ReadDefaults()
    ensures ParseInt("1") == Some(1) && ParseInt("10") == Some(10)
  {
    ParseIntShowInt(1);
    ParseIntShowInt(10);
    assert ShowInt(1) == "1";
    assert ShowInt(10) == "10";
  }

  /** An integer `page` parameter `n` becomes `max(1, n)`. */
  lemma PageClamped(params: Params, n: int)
    requires "page" in params && params["page"] == ShowInt(n)
    ensures PageOf(params) == Some(if n < 1 then 1 else n)
  {
    ParseIntShowInt(n);
    ParamReads(params, "page", "1", ShowInt(n), n);
    assert Max(Some(1), Some(n)) == Some(if n < 1 then 1 else n);
  }

  /** An integer `limit` parameter `n` is clamped into 1..100. */
  lemma LimitClamped(params: Params, n: int)
    requires "limit" in params && params["limit"] == ShowInt(n)
    ensures LimitOf(params) == Some(if n < 1 then 1 else if n > 100 then 100 else n)
  {
    ParseIntShowInt(n);
    ParamReads(params, "limit", "10", ShowInt(n), n);
    ClampToLimit(n);
  }

  /** The clamp `Math.max(1, Math.min(100, n))`. */
  lemma ClampToLimit(n: int)
    ensures Max(Some(1), Min(Some(100), Some(n))) == Some(if n < 1 then 1 else if n > 100 then 100 else n)
  {
  }

  /** A parameter whose text reads as `n` is read as `n`, whatever the fallback. */
  lemma ParamReads(params: Params, name: string, fallback: string, s: string, n: int)
    requires name in params && params[name] == s && ParseInt(s) == Some(n)
    ensures ParseInt(GetOr(params, name, fallback)) == Some(n)
  {
    ParseIntEmpty();
  }

  /**
   * Whatever the parameters, a parsed page is at least 1, a parsed limit lies
   * in 1..100 and the skip is a non-negative count; NaN in either makes the
   * skip NaN.
   */
  lemma PaginationInvariant(params: Params)
    ensures var pg := Pagination(params);
            && (pg.page.Some? ==> pg.page.value >= 1)
            && (pg.limit.Some? ==> 1 <= pg.limit.value <= 100)
            && (pg.skip.Some? <==> pg.page.Some? && pg.limit.Some?)
            && (pg.skip.Some? ==> pg.skip.value >= 0)
  {
  }

  /** The skip passes over the `page - 1` earlier pages of `limit` items each, so it is a multiple of the limit. */
  lemma SkipIsEarlierPages(page: Option<int>, limit: Option<int>)
    requires page.Some? ==> page.value >= 1
    requires limit.Some? ==> limit.value >= 1
    ensures var skip := SkipCount(page, limit);
            skip.Some? ==> skip.value >= 0 && skip.value == (page.value - 1) * limit.value
  {
  }

  /** The processed query carries the pagination numbers, and its echo carries the same page and limit. */
  lemma PaginationEchoed(params: Params, fields: seq<string>, dateField: string, host: HostParsers, now: DateTime)
    requires Process(params, fields, dateField, host, now).Some?
    ensures var r := Process(params, fields, dateField, host, now).value;
            && r.pagination == Pagination(params)
            && r.filters.page == Pagination(params).page
            && r.filters.limit == Pagination(params).limit
  {
  }

  /** The two `=`-pieces of `k=v=w...` when `k` has no `=`: the key is `k` and the value is the next piece. */
  lemma KeyValuePieces(k: string, rest: string)
    requires '=' !in k
    ensures '=' in k + "=" + rest
    ensures SearchKey(k + "=" + rest) == Trim(k)
    ensures SearchValue(k + "=" + rest) == Trim(Split(rest, '=')[0])
  {
    assert (k + "=" + rest)[|k|] == '=';
    assert k + "=" + rest == k + ['='] + rest;
    SplitConcat(k, rest, '=');
  }

  /** `k=v` with no further `=`: both pieces are trimmed; the key selects the field. */
  lemma KeyValueSearch(k: string, v: string, fields: seq<string>, host: HostParsers, p: Predicate)
    requires '=' !in k && '=' !in v && Trim(k) != "" && Trim(v) != ""
    ensures var r := SearchStep(k + "=" + v, fields, host, p);
            && r.0 == SearchOptions(Some(Trim(k)), Some(Trim(v)), true, k + "=" + v)
            && r.1.anyOf == p.anyOf
            && (Trim(k) in fields ==> r.1.fields == p.fields[Trim(k) := KeyClause(Trim(v), host)])
            && (Trim(k) !in fields ==> r.1 == p)
  {
    KeyValuePieces(k, v);
    SplitNoSeparator(v, '=');
  }

  /** Pieces after the second `=` are ignored: `k=v=w` searches like `k=v` apart from the echoed text. */
  lemma KeyValueIgnoresLaterPieces(k: string, v: string, w: string, fields: seq<string>, host: HostParsers, p: Predicate)
    requires '=' !in k && '=' !in v && Trim(k) != "" && Trim(v) != ""
    ensures SearchKey(k + "=" + v + "=" + w) == Trim(k)
    ensures SearchValue(k + "=" + v + "=" + w) == Trim(v)
    ensures SearchStep(k + "=" + v + "=" + w, fields, host, p).1 == SearchStep(k + "=" + v, fields, host, p).1
  {
    var long, short := k + "=" + v + "=" + w, k + "=" + v;
    assert long == k + "=" + (v + "=" + w);
    KeyValuePieces(k, v + "=" + w);
    assert v + "=" + w == v + ['='] + w;
    SplitFirstPiece(v, w, '=');
    KeyValuePieces(k, v);
    SplitNoSeparator(v, '=');
    KeyValueFilter(long, fields, host, p);
    KeyValueFilter(short, fields, host, p);
  }

  /** The filter a key-value search leaves depends only on its key and value. */
  lemma KeyValueFilter(search: string, fields: seq<string>, host: HostParsers, p: Predicate)
    requires IsKeyValueSearch(search)
    ensures SearchStep(search, fields, host, p).1 ==
            if SearchKey(search) in fields then p.(fields := p.fields[SearchKey(search) := KeyClause(SearchValue(search), host)]) else p
  {
  }

  /** A numeric value gives numeric equality, anything else a case-insensitive regex on the trimmed value. */
  lemma KeyClauseShape(value: string, host: HostParsers)
    ensures KeyClause(value, host).NumEq? <==> host.number(value).Some? && host.parseFloat(value).Some?
    ensures KeyClause(value, host).NumEq? ==> KeyClause(value, host).n == host.parseFloat(value).value
    ensures !KeyClause(value, host).NumEq? ==> KeyClause(value, host) == Regex(value)
  {
  }

  /**
   * A search that is not `key=value` (no `=`, or an empty key or value after
   * trimming) matches the raw text against every searchable field, in their
   * order, and sets no field; with no searchable fields it adds nothing.
   */
  lemma FreeTextSearch(search: string, fields: seq<string>, host: HostParsers, p: Predicate)
    requires !IsKeyValueSearch(search)
    ensures var (opts, q) := SearchStep(search, fields, host, p);
            && opts == SearchOptions(None, None, false, search)
            && q.fields == p.fields
            && (|fields| == 0 ==> q == p)
            && (|fields| > 0 ==> q.anyOf.Some? && |q.anyOf.value| == |fields|
                                 && forall i :: 0 <= i < |fields| ==> q.anyOf.value[i] == Alternative(fields[i], search))
  {
  }

  /** A search without `=` is always free text. */
  lemma NoEqualsIsFreeText(search: string)
    requires '=' !in search
    ensures !IsKeyValueSearch(search)
  {
  }

  /** The key-value search changes at most the field it names, and only when that field is searchable. */
  lemma KeyValueTouchesOnlyKey(search: string, fields: seq<string>, host: HostParsers, p: Predicate)
    requires IsKeyValueSearch(search)
    ensures var (opts, q) := SearchStep(search, fields, host, p);
            && opts.isKeyValue && opts.field == Some(SearchKey(search)) && opts.value == Some(SearchValue(search))
            && q.anyOf == p.anyOf
            && q.fields.Keys == p.fields.Keys + (if SearchKey(search) in fields then {SearchKey(search)} else {})
            && forall f :: f in p.fields && f != SearchKey(search) ==> q.fields[f] == p.fields[f]
  {
  }

  /** The `-`-pieces of a text made of pieces with no `-`, joined by `-`. */
  lemma DashPieces3(a: string, b: string, c: string)
    requires '-' !in a && '-' !in b && '-' !in c
    ensures Split(a + "-" + b + "-" + c, '-') == [a, b, c]
  {
    assert a + "-" + b + "-" + c == a + ['-'] + (b + ['-'] + c);
    SplitConcat(a, b + ['-'] + c, '-');
    SplitConcat(b, c, '-');
    SplitNoSeparator(c, '-');
  }

  lemma DashPieces2(a: string, b: string)
    requires '-' !in a && '-' !in b
    ensures Split(a + "-" + b, '-') == [a, b]
  {
    assert a + "-" + b == a + ['-'] + b;
    SplitConcat(a, b, '-');
    SplitNoSeparator(b, '-');
  }

  /** `parseInt` reads back the decimal text of a natural number, which has no `-` in it. */
  lemma ReadNat(n: nat)
    ensures ParseInt(ShowNat(n)) == Some(n)
    ensures '-' !in ShowNat(n)
    ensures n < 100 ==> |ShowNat(n)| <= 2
  {
    if n < 100 {
      ShowNatShort(n);
    }
    ParseIntShowInt(n);
    NoDashInDigits(ShowNat(n));
  }

  /** The DD-MM-YYYY reading of `d-m-y`: the constructor gets year `y`, month index `m - 1` and day `d`. */
  lemma DayMonthYearText(d: nat, m: nat, y: nat, parseDate: string -> Option<Time>)
    requires d < 100
    ensures FilterDate(ShowNat(d) + "-" + ShowNat(m) + "-" + ShowNat(y), parseDate) == Some(NewDate(y, m - 1, d))
  {
    ReadNat(d);
    ReadNat(m);
    ReadNat(y);
    DayMonthYearOf(ShowNat(d), ShowNat(m), ShowNat(y), d, m, y, parseDate);
  }

  /** Pieces that read as `day`, `month` and `year`, joined by `-`, name that day. */
  lemma DayMonthYearOf(a: string, b: string, c: string, day: int, month: int, year: int, parseDate: string -> Option<Time>)
    requires '-' !in a && '-' !in b && '-' !in c && |a| <= 2
    requires ParseInt(a) == Some(day) && ParseInt(b) == Some(month) && ParseInt(c) == Some(year)
    ensures FilterDate(a + "-" + b + "-" + c, parseDate) == Some(NewDate(year, month - 1, day))
  {
    DayMonthYearPieces(a, b, c);
    assert DayMonthYearDate([a, b, c]) == DateOf(ParseInt(a), ParseInt(b), ParseInt(c));
    DateOfNumbers(day, month, year);
  }

  /** Three numbers give the local midnight of that day, the month counted from 1. */
  lemma DateOfNumbers(day: int, month: int, year: int)
    ensures DateOf(Some(day), Some(month), Some(year)) == Some(NewDate(year, month - 1, day))
  {
  }

  /** Three `-`-free pieces joined by `-`, the first of at most two characters, take the DD-MM-YYYY branch with those pieces. */
  lemma DayMonthYearPieces(a: string, b: string, c: string)
    requires '-' !in a && '-' !in b && '-' !in c && |a| <= 2
    ensures IsDayMonthYear(a + "-" + b + "-" + c)
    ensures Split(a + "-" + b + "-" + c, '-') == [a, b, c]
  {
    DashPieces3(a, b, c);
    assert (a + "-" + b + "-" + c)[|a|] == '-';
  }

  /** `d-m` has no year piece: `parseInt(undefined)` is NaN and the date is invalid. */
  lemma MissingYearIsInvalid(d: nat, m: nat, parseDate: string -> Option<Time>)
    requires d < 100
    ensures FilterDate(ShowNat(d) + "-" + ShowNat(m), parseDate) == None
  {
    var s := ShowNat(d) + "-" + ShowNat(m);
    ReadNat(d);
    ReadNat(m);
    DashPieces2(ShowNat(d), ShowNat(m));
    ShowNatShort(d);
    assert s[|ShowNat(d)|] == '-';
  }

  /** A string whose first `-`-piece is longer than two characters (such as `2024-05-01`) goes to the host parser. */
  lemma LongFirstPieceGoesToHost(head: string, rest: string, parseDate: string -> Option<Time>)
    requires '-' !in head && |head| > 2
    ensures FilterDate(head + "-" + rest, parseDate) == parseDate(head + "-" + rest)
  {
    assert head + "-" + rest == head + ['-'] + rest;
    SplitFirstPiece(head, rest, '-');
  }

  lemma NoDashInDigits(s: string)
    requires forall i :: 0 <= i < |s| ==> IsDecimalDigit(s[i])
    ensures '-' !in s
  {
  }

  lemma ShowNatShort(d: nat)
    requires d < 100
    ensures |ShowNat(d)| <= 2
  {
    if d >= 10 {
      assert d / 10 < 10;
    }
  }

  /**
   * A valid date sets the field to the inclusive range from the first to the
   * last millisecond of its day, which holds exactly the instants of that day;
   * no other part of the filter changes.
   */
  lemma DayStepSelectsDay(t: Time, dateField: string, p: Predicate)
    ensures var (opts, q) := DayStep(Some(t), dateField, p);
            && opts.startDate.Some? && opts.endDate.Some?
            && q.fields == p.fields[dateField := Range(opts.startDate.value, opts.endDate.value)]
            && q.anyOf == p.anyOf
            && opts.startDate.value <= t <= opts.endDate.value
            && opts.endDate.value - opts.startDate.value == MsPerDay - 1
            && forall u :: opts.startDate.value <= u <= opts.endDate.value <==> Day(u) == Day(t)
  {
    forall u ensures StartOfDay(t) <= u <= EndOfDay(t) <==> Day(u) == Day(t) {
      DayRange(t, u);
    }
    DayRange(t, t);
  }

  /** An invalid date leaves the filter unchanged and reports neither bound. */
  lemma InvalidDateIgnored(dateField: string, p: Predicate)
    ensures DayStep(None, dateField, p) == (DateFilterOptions(None, None), p)
  {
  }

  /** The sort keyword ignores the case of ASCII letters. */
  lemma SortKeyIgnoresCase(sort: string)
    ensures SortKey(ToLower(sort)) == SortKey(sort)
  {
    assert ToLower(ToLower(sort)) == ToLower(sort);
  }

  /** Lower-casing works character by character, so it distributes over concatenation. */
  lemma ToLowerConcat(a: string, b: string)
    ensures ToLower(a + b) == ToLower(a) + ToLower(b)
  {
  }

  /** Lower-casing leaves white space as it is. */
  lemma LowerKeepsSpace(w: string)
    requires AllSpace(w)
    ensures ToLower(w) == w
  {
    assert forall i :: 0 <= i < |w| ==> ToLower(w)[i] == w[i] by {
      forall i | 0 <= i < |w| ensures ToLower(w)[i] == w[i] {
        assert IsSpace(w[i]);
      }
    }
  }

  /** The sort keyword ignores white space anywhere in it. */
  lemma SortKeyIgnoresSpaces(a: string, w: string, b: string)
    requires AllSpace(w)
    ensures SortKey(a + w + b) == SortKey(a + b)
  {
    var la, lb := ToLower(a), ToLower(b);
    LowerKeepsSpace(w);
    ToLowerConcat(a + w, b);
    ToLowerConcat(a, w);
    ToLowerConcat(a, b);
    assert ToLower(a + w + b) == la + w + lb;
    RemoveSpacesConcat(la + w, lb);
    RemoveSpacesConcat(la, w);
    RemoveSpacesConcat(la, lb);
    RemoveAllSpace(w);
    assert RemoveSpaces(la + w) == RemoveSpaces(la);
  }

  lemma {:induction false} RemoveAllSpace(w: string)
    requires AllSpace(w)
    ensures RemoveSpaces(w) == ""
  {
    if w != [] {
      RemoveAllSpace(w[1..]);
    }
  }

  /** An unrecognised sort value leaves the filter untouched and reports only the sort text. */
  lemma UnknownSortIgnored(sort: string, dateField: string, now: DateTime, p: Predicate)
    requires RelativeRange(SortKey(sort), now).None?
    ensures SortStep(sort, dateField, now, p) == Some((SortOptions(None, sort), p))
  {
  }

  /**
   * "Last month" replaces whatever the field held with the closed range from
   * the first millisecond of the previous month to the millisecond before the
   * current month, which spans exactly the days of the previous month (December
   * of the year before in January).
   */
  lemma LastMonthReplacesField(sort: string, dateField: string, now: DateTime, p: Predicate)
    requires SortKey(sort) == "lastmonth" || SortKey(sort) == "last1month"
    requires 0 <= now.month < 12
    ensures var r := SortStep(sort, dateField, now, p);
            var prev := PreviousMonth(FullYear(now.year), now.month);
            && r.Some?
            && r.value.1.fields == p.fields[dateField := Range(PreviousMonthStart(now), PreviousMonthEnd(now))]
            && r.value.1.anyOf == p.anyOf
            && r.value.0 == SortOptions(Some(DateFilterOptions(Some(PreviousMonthStart(now)), Some(PreviousMonthEnd(now)))), sort)
            && PreviousMonthStart(now) == MakeDate(MakeDay(prev.0, prev.1, 1), 0)
            && PreviousMonthEnd(now) + 1 == MonthStart(now)
            && PreviousMonthEnd(now) + 1 - PreviousMonthStart(now) == DaysInMonth(prev.0, prev.1) * MsPerDay
  {
    PreviousMonthStartIsFirstDay(now);
    PreviousMonthEndTouchesMonthStart(now);
    PreviousMonthIsWholeMonth(now);
  }

  /** "Last week" sets the lower bound exactly seven days before now, on a field the earlier steps left alone. */
  lemma LastWeekIsSevenDays(sort: string, dateField: string, now: DateTime, p: Predicate)
    requires SortKey(sort) == "lastweek" || SortKey(sort) == "last1week"
    requires dateField !in p.fields
    ensures var r := SortStep(sort, dateField, now, p);
            && r.Some?
            && r.value.1.fields == p.fields[dateField := Ops(None, Some(now.Time() - 7 * MsPerDay), None)]
            && r.value.0.dateRange == Some(DateFilterOptions(Some(now.Time() - 7 * MsPerDay), None))
  {
    DaysBeforeIsExact(now, 7);
  }

  /**
   * A lower-bound sort after a valid date filter overwrites the day's start
   * and keeps its end: the field becomes the range from the sort's start to
   * the end of the filtered day.
   */
  lemma DateThenLowerBound(dateFilter: string, sort: string, dateField: string, parseDate: string -> Option<Time>,
                           now: DateTime, p: Predicate, t: Time, start: Time)
    requires FilterDate(dateFilter, parseDate) == Some(t)
    requires RelativeRange(SortKey(sort), now) == Some(LowerBound(start))
    ensures var q := DateStep(dateFilter, dateField, parseDate, p).1;
            var r := SortStep(sort, dateField, now, q);
            && r.Some?
            && r.value.1 == p.(fields := p.fields[dateField := Range(start, EndOfDay(t))])
  {
    LowerBoundKeepsEnd(p, dateField, StartOfDay(t), EndOfDay(t), start);
  }

  /**
   * The sort step throws exactly when it sets a lower bound on a field that
   * holds a non-zero number or a non-empty string, and otherwise leaves
   * the `$or` list and every other field as they were.
   */
  lemma SortThrowsOnlyOnScalar(sort: string, dateField: string, now: DateTime, p: Predicate)
    ensures var r := SortStep(sort, dateField, now, p);
            r.None? <==> RelativeRange(SortKey(sort), now).Some? && RelativeRange(SortKey(sort), now).value.LowerBound?
                         && dateField in p.fields && Truthy(p.fields[dateField]) && !p.fields[dateField].Ops?
    ensures var r := SortStep(sort, dateField, now, p);
            r.Some? ==> r.value.1.anyOf == p.anyOf
                        && forall f :: f in p.fields && f != dateField ==> f in r.value.1.fields && r.value.1.fields[f] == p.fields[f]
  {
  }

  /** After the search phase the date field holds nothing or an operator object, unless the search named it as a searchable key. */
  lemma SearchPhaseLeavesDateField(search: Option<string>, fields: seq<string>, host: HostParsers, dateField: string)
    requires !(Present(search) && IsKeyValueSearch(search.value) && SearchKey(search.value) == dateField && dateField in fields)
    ensures var p := SearchPhase(search, fields, host).1;
            dateField !in p.fields || p.fields[dateField].Ops?
  {
  }

  /** The date phase stores only a range on the date field, so it keeps the field free of numbers and strings. */
  lemma DatePhaseKeepsOps(dateFilter: Option<string>, dateField: string, parseDate: string -> Option<Time>, p: Predicate)
    requires dateField !in p.fields || p.fields[dateField].Ops?
    ensures var q := DatePhase(dateFilter, dateField, parseDate, p).1;
            dateField !in q.fields || q.fields[dateField].Ops?
  {
  }

  /**
   * The whole processor fails only when a sort is given and the search named
   * the date field itself as a searchable key: the date and sort steps only
   * ever store ranges on that field.
   */
  lemma ProcessFailsOnlyOnDateFieldSearch(params: Params, fields: seq<string>, dateField: string, host: HostParsers, now: DateTime)
    requires Process(params, fields, dateField, host, now).None?
    ensures Present(Get(params, "sort"))
    ensures Present(Get(params, "search")) && IsKeyValueSearch(params["search"])
    ensures SearchKey(params["search"]) == dateField && dateField in fields
  {
    var search := Get(params, "search");
    var s := SearchPhase(search, fields, host);
    var d := DatePhase(Get(params, "date"), dateField, host.parseDate, s.1);
    assert SortPhase(Get(params, "sort"), dateField, now, d.1).None?;
    if !(Present(search) && IsKeyValueSearch(search.value) && SearchKey(search.value) == dateField && dateField in fields) {
      SearchPhaseLeavesDateField(search, fields, host, dateField);
      DatePhaseKeepsOps(Get(params, "date"), dateField, host.parseDate, s.1);
      SortThrowsOnlyOnScalar(Get(params, "sort").value, dateField, now, d.1);
      assert false;
    }
  }

  /** With no parameters: page 1 of 10, an empty filter, no step options, and an all-null echo. */
  lemma ProcessDefaults(fields: seq<string>, dateField: string, host: HostParsers, now: DateTime)
    ensures Process(map[], fields, dateField, host, now) ==
            Some(ProcessedQuery(PaginationOptions(Some(1), Some(10), Some(0)), Empty, None, None, None,
                                Filters(None, None, None, Some(1), Some(10))))
  {
    PaginationDefaults(map[]);
  }

  /** The echoed filters are the raw parameters, or null when absent or empty. */
  lemma FiltersEchoParameters(params: Params, fields: seq<string>, dateField: string, host: HostParsers, now: DateTime)
    requires Process(params, fields, dateField, host, now).Some?
    ensures var f := Process(params, fields, dateField, host, now).value.filters;
            && (f.search.Some? <==> "search" in params && params["search"] != "")
            && (f.search.Some? ==> f.search.value == params["search"])
            && (f.dateFilter.Some? <==> "date" in params && params["date"] != "")
            && (f.dateFilter.Some? ==> f.dateFilter.value == params["date"])
            && (f.sort.Some? <==> "sort" in params && params["sort"] != "")
            && (f.sort.Some? ==> f.sort.value == params["sort"])
  {
  }
}
