/**
 * The plan document: a name, a validity in days, a price and a status,
 * with the creation and update timestamps the schema adds. The schema
 * trims the name when a document is built. Its validators require the
 * name, a validity of at least 1 and a price of at least 0, and restrict
 * the status to "active" or "inactive", which is the default.
 */
module PlanModel {
  import opened Wrappers
  import opened JsText
  import opened LocalCalendar
  import opened JsonBody

  datatype PlanStatus = Active | Inactive

  /** The status as stored and reported. */
  function StatusText(s: PlanStatus): string {
    match s
    case Active => "active"
    case Inactive => "inactive"
  }

  /** The status a body value names, if it is one of the two the enum allows. */
  function StatusOf(v: Json): (r: Option<PlanStatus>)
    ensures r.Some? <==> OneOf(v, ["active", "inactive"])
    ensures r.Some? ==> v == Str(StatusText(r.value))
  {
    if v == Str("active") then Some(Active)
    else if v == Str("inactive") then Some(Inactive)
    else None
  }

  datatype Plan = Plan(
    id: string,
    name: string,
    validityDays: real,
    price: real,
    status: PlanStatus,
    createdAt: Time,
    updatedAt: Time)

  /** What the schema's validators and its trim setter guarantee of a stored plan. */
  predicate ValidPlan(p: Plan) {
    && p.name != "" && Trimmed(p.name)
    && p.validityDays >= 1.0
    && p.price >= 0.0
    && p.createdAt <= p.updatedAt
  }

  /**
   * `new PlanModel({ plan_name, plan_validity_days, plan_price })` saved at
   * `now`: the name trimmed, the status defaulted, both timestamps `now`;
   * `None` when the required validator rejects a name that trims to nothing.
   */
  function NewPlan(id: string, name: string, validityDays: real, price: real, now: Time): (r: Option<Plan>)
    requires validityDays >= 1.0 && price >= 0.0
    ensures r.None? <==> Trim(name) == ""
    ensures r.Some? ==> ValidPlan(r.value)
    ensures r.Some? ==> r.value == Plan(id, Trim(name), validityDays, price, Active, now, now)
  {
    TrimmedIff(name);
    if Trim(name) == "" then None
    else Some(Plan(id, Trim(name), validityDays, price, Active, now, now))
  }

  /** Status values round-trip through their text. */
  lemma StatusTextRoundTrip(s: PlanStatus)
    ensures StatusOf(Str(StatusText(s))) == Some(s)
  {
  }
}
