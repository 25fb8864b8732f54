/**
 * `GET /api/admin/plans/list`: the plan listing. It builds its filter with
 * the inline query steps, using these rules: a `key:value` search knows
 * `plan_name` (a regular expression), `status` (an exact string), and
 * `plan_price` and `plan_validity_days` (numbers, ignored when they do not
 * parse). Free text is matched against the name and the status, and the
 * dates are on `createdAt`.
 */
module PlanListRoute {
  import opened Wrappers
  import opened JsText
  import opened JsNumbers
  import opened LocalCalendar
  import opened QueryPredicate
  import opened QueryProcessor
  import opened Pagination
  import opened InlineQuery

  /** The fields a free-text search is matched against, in order. */
  const PlanSearchFields: seq<string> := ["plan_name", "status"]

  /** The date field the `date` and `sort` parameters filter on, and the listing is sorted on. */
  const PlanDateField: string := "createdAt"

  /** The clause a `key:value` search puts on a plan field, given the host's `parseFloat`. */
  function PlanClause(parseFloat: string -> Option<real>, key: string, value: string): Option<Clause> {
    if key == "plan_name" then Some(Regex(value))
    else if key == "status" then Some(StrEq(value))
    else if key == "plan_price" then
      match parseFloat(value)
      case Some(x) => Some(NumEq(x))
      case None => None
    else if key == "plan_validity_days" then
      match ParseInt(value)
      case Some(n) => Some(NumEq(n as real))
      case None => None
    else None
  }

  function PlanRule(parseFloat: string -> Option<real>): KeyRule {
    (key: string, value: string) => PlanClause(parseFloat, key, value)
  }

  /** The whole listing, given the host's parsers and the database's answer. */
  function PlanList(params: Params, parseFloat: string -> Option<real>, parseDate: string -> Option<Time>,
                    now: DateTime, database: Database): (r: ListResponse)
    ensures r.Listed? ==> && r.find.sortNewestFirst == "createdAt" && r.find.limit == InlineLimit(params)
                          && r.find.skip == SkipCount(InlinePage(params), InlineLimit(params))
                          && database(r.find) == Some(r.pagination.total)
  {
    InlineList(params, PlanRule(parseFloat), PlanSearchFields, PlanDateField, parseDate, now, database)
  }

  /** The handler, building its filter object in place. */
  method ListPlans(params: Params, parseFloat: string -> Option<real>, parseDate: string -> Option<Time>,
                   now: DateTime, database: Database) returns (r: ListResponse)
    ensures r == PlanList(params, parseFloat, parseDate, now, database)
  {
    r := ListHandler(params, PlanRule(parseFloat), PlanSearchFields, PlanDateField, parseDate, now, database);
  }

  // ----- properties -----

  /**
   * A `key:value` search sets at most the field named by the trimmed key, to
   * the clause for the trimmed value: a pattern for the name, the exact text
   * for the status, the parsed number for the price and the validity days;
   * an unknown key or a number that does not parse leaves the filter as it was.
   */
  lemma PlanSearchByKey(k: string, v: string, parseFloat: string -> Option<real>, p: Predicate)
    requires ':' !in k && ':' !in v
    ensures var q := ColonSearchStep(k + ":" + v, PlanRule(parseFloat), PlanSearchFields, p);
            var key, value := Trim(k), Trim(v);
            && q.anyOf == p.anyOf
            && (key == "plan_name" ==> q.fields == p.fields[key := Regex(value)])
            && (key == "status" ==> q.fields == p.fields[key := StrEq(value)])
            && (key == "plan_price" && parseFloat(value).Some? ==> q.fields == p.fields[key := NumEq(parseFloat(value).value)])
            && (key == "plan_validity_days" && ParseInt(value).Some? ==> q.fields == p.fields[key := NumEq(ParseInt(value).value as real)])
            && ((key == "plan_price" && parseFloat(value).None?) || (key == "plan_validity_days" && ParseInt(value).None?) ==> q == p)
            && (key !in {"plan_name", "status", "plan_price", "plan_validity_days"} ==> q == p)
  {
    KeyValueStep(k, v, PlanRule(parseFloat), PlanSearchFields, p);
    var key, value := Trim(k), Trim(v);
    assert PlanRule(parseFloat)(key, value) == PlanClause(parseFloat, key, value);
    PlanClauseCases(parseFloat, key, value);
  }

  /** The clause for each known key; an unknown key, or a number that does not parse, gives none. */
  lemma PlanClauseCases(parseFloat: string -> Option<real>, key: string, value: string)
    ensures var c := PlanClause(parseFloat, key, value);
            && (key == "plan_name" ==> c == Some(Regex(value)))
            && (key == "status" ==> c == Some(StrEq(value)))
            && (key == "plan_price" ==> c == if parseFloat(value).Some? then Some(NumEq(parseFloat(value).value)) else None)
            && (key == "plan_validity_days" ==> c == if ParseInt(value).Some? then Some(NumEq(ParseInt(value).value as real)) else None)
            && (key !in {"plan_name", "status", "plan_price", "plan_validity_days"} ==> c.None?)
  {
    var name, status, price, days := "plan_name", "status", "plan_price", "plan_validity_days";
    assert name[5] == 'n' && price[5] == 'p' && days[5] == 'v' && status[0] == 's' && name[0] == 'p';
  }

  /** A validity in days written as a whole number is searched as that number. */
  lemma ValidityDaysSearch(n: int, parseFloat: string -> Option<real>)
    ensures PlanClause(parseFloat, "plan_validity_days", ShowInt(n)) == Some(NumEq(n as real))
  {
    ParseIntShowInt(n);
    PlanClauseCases(parseFloat, "plan_validity_days", ShowInt(n));
  }

  /** Text that is not `key:value` matches plans whose name or status contains it, ignoring case. */
  lemma PlanFreeText(search: string, parseFloat: string -> Option<real>, p: Predicate)
    requires !IsColonKeyValue(search)
    ensures ColonSearchStep(search, PlanRule(parseFloat), PlanSearchFields, p)
            == p.(anyOf := Some([Alternative("plan_name", search), Alternative("status", search)]))
  {
    var alts := Alternatives(PlanSearchFields, search);
    assert alts[0] == Alternative("plan_name", search) && alts[1] == Alternative("status", search);
    assert alts == [Alternative("plan_name", search), Alternative("status", search)];
  }

  /**
   * No search can put a number or a string on `createdAt`, so the sort step
   * never throws and the request is always built: sorted on `createdAt`,
   * newest first, with the unclamped `page` and `limit` as its window. The
   * handler answers 500 exactly when the database fails on that request.
   */
  lemma PlanListFailsOnlyInDatabase(params: Params, parseFloat: string -> Option<real>, parseDate: string -> Option<Time>,
                                    now: DateTime, database: Database)
    ensures InlineFind(params, PlanRule(parseFloat), PlanSearchFields, PlanDateField, parseDate, now).Some?
    ensures var find := InlineFind(params, PlanRule(parseFloat), PlanSearchFields, PlanDateField, parseDate, now).value;
            var r := PlanList(params, parseFloat, parseDate, now, database);
            && find.sortNewestFirst == "createdAt"
            && find.limit == InlineLimit(params)
            && find.skip == SkipCount(InlinePage(params), InlineLimit(params))
            && (r.Listed? <==> database(find).Some?)
            && (r.Listed? ==> r.find == find && r.pagination == GeneratePaginationMeta(database(find).value, InlinePage(params), InlineLimit(params)))
  {
    forall v ensures PlanRule(parseFloat)(PlanDateField, v).None? {
      assert PlanDateField != "plan_name" && PlanDateField != "status";
      assert PlanDateField != "plan_price" && PlanDateField != "plan_validity_days";
    }
    InlineFailsOnlyInDatabase(params, PlanRule(parseFloat), PlanSearchFields, PlanDateField, parseDate, now, database);
  }
}
