/**
 * `GET /api/admin/plans/history`: the listing of plan purchases. It builds
 * its filter with the inline query steps, using these rules: a `key:value`
 * search knows `buyed_owner_username` (a regular expression), and `status`
 * and `plan_id` (exact strings). Free text is matched against the owner's
 * user name and the status, and the dates are on `buyed_date`.
 */
module PlanHistoryRoute {
  import opened Wrappers
  import opened JsText
  import opened JsNumbers
  import opened LocalCalendar
  import opened QueryPredicate
  import opened QueryProcessor
  import opened Pagination
  import opened InlineQuery

  /** The fields a free-text search is matched against, in order. */
  const HistorySearchFields: seq<string> := ["buyed_owner_username", "status"]

  /** The date field the `date` and `sort` parameters filter on, and the listing is sorted on. */
  const HistoryDateField: string := "buyed_date"

  /** The clause a `key:value` search puts on a purchase field. */
  function HistoryClause(key: string, value: string): Option<Clause> {
    if key == "buyed_owner_username" then Some(Regex(value))
    else if key == "status" then Some(StrEq(value))
    else if key == "plan_id" then Some(StrEq(value))
    else None
  }

  function HistoryRule(): KeyRule {
    (key: string, value: string) => HistoryClause(key, value)
  }

  /** The whole listing, given the host's date parser and the database's answer. */
  function HistoryList(params: Params, parseDate: string -> Option<Time>, now: DateTime, database: Database): (r: ListResponse)
    ensures r.Listed? ==> && r.find.sortNewestFirst == "buyed_date" && r.find.limit == InlineLimit(params)
                          && r.find.skip == SkipCount(InlinePage(params), InlineLimit(params))
                          && database(r.find) == Some(r.pagination.total)
  {
    InlineList(params, HistoryRule(), HistorySearchFields, HistoryDateField, parseDate, now, database)
  }

  /** The handler, building its filter object in place. */
  method ListHistory(params: Params, parseDate: string -> Option<Time>, now: DateTime, database: Database)
    returns (r: ListResponse)
    ensures r == HistoryList(params, parseDate, now, database)
  {
    r := ListHandler(params, HistoryRule(), HistorySearchFields, HistoryDateField, parseDate, now, database);
  }

  // ----- properties -----

  /**
   * A `key:value` search sets at most the field named by the trimmed key: a
   * pattern for the owner's user name, the exact text for the status and the
   * plan id; an unknown key leaves the filter as it was.
   */
  lemma HistorySearchByKey(k: string, v: string, p: Predicate)
    requires ':' !in k && ':' !in v
    ensures var q := ColonSearchStep(k + ":" + v, HistoryRule(), HistorySearchFields, p);
            var key, value := Trim(k), Trim(v);
            && q.anyOf == p.anyOf
            && (key == "buyed_owner_username" ==> q.fields == p.fields[key := Regex(value)])
            && (key == "status" || key == "plan_id" ==> q.fields == p.fields[key := StrEq(value)])
            && (key !in {"buyed_owner_username", "status", "plan_id"} ==> q == p)
  {
    KeyValueStep(k, v, HistoryRule(), HistorySearchFields, p);
    var key, value := Trim(k), Trim(v);
    if key == "buyed_owner_username" {
    } else if key == "status" {
    } else if key == "plan_id" {
    } else {
      assert HistoryClause(key, value).None?;
    }
  }

  /** Text that is not `key:value` matches purchases whose owner's user name or status contains it, ignoring case. */
  lemma HistoryFreeText(search: string, p: Predicate)
    requires !IsColonKeyValue(search)
    ensures ColonSearchStep(search, HistoryRule(), HistorySearchFields, p)
            == p.(anyOf := Some([Alternative("buyed_owner_username", search), Alternative("status", search)]))
  {
    var alts := Alternatives(HistorySearchFields, search);
    assert alts[0] == Alternative("buyed_owner_username", search) && alts[1] == Alternative("status", search);
    assert alts == [Alternative("buyed_owner_username", search), Alternative("status", search)];
  }

  /**
   * No search can put a number or a string on `buyed_date`, so the sort step
   * never throws and the request is always built: sorted on `buyed_date`,
   * newest first, with the unclamped `page` and `limit` as its window. The
   * handler answers 500 exactly when the database fails on that request.
   */
  lemma HistoryListFailsOnlyInDatabase(params: Params, parseDate: string -> Option<Time>, now: DateTime, database: Database)
    ensures InlineFind(params, HistoryRule(), HistorySearchFields, HistoryDateField, parseDate, now).Some?
    ensures var find := InlineFind(params, HistoryRule(), HistorySearchFields, HistoryDateField, parseDate, now).value;
            var r := HistoryList(params, parseDate, now, database);
            && find.sortNewestFirst == "buyed_date"
            && find.limit == InlineLimit(params)
            && find.skip == SkipCount(InlinePage(params), InlineLimit(params))
            && (r.Listed? <==> database(find).Some?)
            && (r.Listed? ==> r.find == find && r.pagination == GeneratePaginationMeta(database(find).value, InlinePage(params), InlineLimit(params)))
  {
    forall v ensures HistoryRule()(HistoryDateField, v).None? {
      assert HistoryDateField != "buyed_owner_username" && HistoryDateField != "status" && HistoryDateField != "plan_id";
    }
    InlineFailsOnlyInDatabase(params, HistoryRule(), HistorySearchFields, HistoryDateField, parseDate, now, database);
  }
}
