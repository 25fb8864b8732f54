/**
 * The MongoDB filter object that the list handlers build: a map from field
 * name to a clause, plus an optional `$or` list of case-insensitive regular
 * expressions. The handlers build it in place, so it is also a class whose
 * methods are the assignments they make.
 */
module QueryPredicate {
  import opened Wrappers
  import opened LocalCalendar

  /**
   * What a field of the filter holds: a number (`field: 12.5`), a string
   * (`field: "active"`), or an operator object with any of `$regex` (always
   * with `$options: "i"`), `$gte` and `$lte`.
   */
  datatype Clause =
    | NumEq(n: real)
    | StrEq(s: string)
    | Ops(regex: Option<string>, gte: Option<Time>, lte: Option<Time>)

  /** `{ $regex: pattern, $options: "i" }` */
  function Regex(pattern: string): Clause {
    Ops(Some(pattern), None, None)
  }

  /** `{ $gte: start, $lte: end }` */
  function Range(start: Time, end: Time): Clause {
    Ops(None, Some(start), Some(end))
  }

  /** JavaScript truthiness of a field value: objects are truthy, `0` and `""` are not. */
  predicate Truthy(c: Clause) {
    match c
    case NumEq(n) => n != 0.0
    case StrEq(s) => s != ""
    case Ops(_, _, _) => true
  }

  /** One element `{ [field]: { $regex: pattern, $options: "i" } }` of an `$or` list. */
  datatype Alternative = Alternative(field: string, pattern: string)

  /** The whole filter object. */
  datatype Predicate = Predicate(fields: map<string, Clause>, anyOf: Option<seq<Alternative>>)

  const Empty: Predicate := Predicate(map[], None)

  /** The `$or` list that matches `pattern` against each of `fields`, in order. */
  function Alternatives(fields: seq<string>, pattern: string): (alts: seq<Alternative>)
    ensures |alts| == |fields|
    ensures forall i :: 0 <= i < |fields| ==> alts[i] == Alternative(fields[i], pattern)
  {
    if fields == [] then [] else [Alternative(fields[0], pattern)] + Alternatives(fields[1..], pattern)
  }

  /** A relative date range: a lower bound only, or a closed range. */
  datatype SortRange = LowerBound(start: Time) | Closed(start: Time, end: Time)

  /**
   * Setting a lower bound on `field`: a truthy object gets its `$gte`
   * replaced and keeps its other operators; an absent or falsy value is
   * replaced by `{ $gte: start }`; a truthy number or string cannot take a
   * property in strict mode, which throws a TypeError (`None`).
   */
  function WithLowerBound(p: Predicate, field: string, start: Time): (r: Option<Predicate>)
    ensures r.None? <==> field in p.fields && Truthy(p.fields[field]) && !p.fields[field].Ops?
    ensures r.Some? ==> r.value.anyOf == p.anyOf && r.value.fields.Keys == p.fields.Keys + {field}
    ensures r.Some? ==> forall f :: f in p.fields && f != field ==> r.value.fields[f] == p.fields[f]
    ensures r.Some? ==> r.value.fields[field].Ops? && r.value.fields[field].gte == Some(start)
    ensures r.Some? && field in p.fields && p.fields[field].Ops? ==>
              r.value.fields[field] == p.fields[field].(gte := Some(start))
  {
    if field in p.fields && Truthy(p.fields[field]) then
      match p.fields[field]
      case Ops(rx, _, lte) => Some(p.(fields := p.fields[field := Ops(rx, Some(start), lte)]))
      case _ => None
    else
      Some(p.(fields := p.fields[field := Ops(None, Some(start), None)]))
  }

  /** The filter object as the handlers mutate it. */
  class MongoQuery {
    var fields: map<string, Clause>
    var anyOf: Option<seq<Alternative>>

    function Value(): Predicate
      reads this
    {
      Predicate(fields, anyOf)
    }

    /** `{}` */
    constructor ()
      ensures Value() == Empty
    {
      fields := map[];
      anyOf := None;
    }

    /** `query[field] = c` */
    method Set(field: string, c: Clause)
      modifies this
      ensures Value() == old(Value()).(fields := old(fields)[field := c])
    {
      fields := fields[field := c];
    }

    /** `query.$or = alts` */
    method SetAnyOf(alts: seq<Alternative>)
      modifies this
      ensures Value() == old(Value()).(anyOf := Some(alts))
    {
      anyOf := Some(alts);
    }

    /**
     * `if (query[field]) query[field].$gte = start; else query[field] = { $gte: start }`;
     * `thrown` reports the TypeError, which leaves the object as it was.
     */
    method SetLowerBound(field: string, start: Time) returns (thrown: bool)
      modifies this
      ensures thrown <==> WithLowerBound(old(Value()), field, start).None?
      ensures !thrown ==> Value() == WithLowerBound(old(Value()), field, start).value
      ensures thrown ==> Value() == old(Value())
    {
      if field in fields && Truthy(fields[field]) {
        match fields[field]
        case Ops(rx, _, lte) =>
          fields := fields[field := Ops(rx, Some(start), lte)];
          thrown := false;
        case _ =>
          thrown := true;
      } else {
        fields := fields[field := Ops(None, Some(start), None)];
        thrown := false;
      }
    }
  }

  /** A lower bound set on a day range replaces its start and keeps its end. */
  lemma LowerBoundKeepsEnd(p: Predicate, field: string, s: Time, e: Time, start: Time)
    ensures var q := p.(fields := p.fields[field := Range(s, e)]);
            WithLowerBound(q, field, start) == Some(p.(fields := p.fields[field := Range(start, e)]))
  {
    var m := p.fields[field := Range(s, e)];
    assert m[field := Range(start, e)] == p.fields[field := Range(start, e)];
  }
}
