/**
 * `POST /api/admin/plans/create`: the guard chain that either rejects the
 * body with the first failing check or builds and saves a new plan. The
 * name lookup is a parameter (`nameTaken`: some plan already has this
 * name). So are the new document's id, the clock, and the host's text for
 * a number, which Mongoose uses to cast a numeric name to a string.
 */
module PlanCreateRoute {
  import opened Wrappers
  import opened JsText
  import opened LocalCalendar
  import opened JsonBody
  import opened PlanModel

  datatype CreateOutcome =
    | Created(plan: Plan)
    | Rejected(failure: Failure)
    /** The 500 "Internal server error" of the `catch`: a body that is not JSON, or a save that throws. */
    | InternalError

  const RequiredMessage: string := "plan_name, plan_validity_days, and plan_price are required"
  const ValidityMessage: string := "plan_validity_days must be a positive number"
  const PriceMessage: string := "plan_price must be a non-negative number"
  const DuplicateMessage: string := "Plan with this name already exists"

  /** The handler: `body` is `None` when the request is not JSON. */
  function CreatePlan(body: Option<Body>, nameTaken: bool, newId: string, now: Time, numberText: real -> string): CreateOutcome {
    if body.None? then InternalError
    else Create(Field(body.value, "plan_name"), Field(body.value, "plan_validity_days"), Field(body.value, "plan_price"), nameTaken, newId, now, numberText)
  }

  /** The handler once the body is parsed: the `plan_name`, `plan_validity_days` and `plan_price` fields. */
  function Create(name: Json, days: Json, price: Json, nameTaken: bool, newId: string, now: Time, numberText: real -> string): (r: CreateOutcome)
    ensures r.Created? ==> && !nameTaken && ValidPlan(r.plan) && r.plan.id == newId && r.plan.status == Active
                           && r.plan.createdAt == now && r.plan.updatedAt == now
                           && days == Num(r.plan.validityDays) && price == Num(r.plan.price)
    ensures r.Rejected? ==> r.failure.status == 400 || (r.failure.status == 409 && nameTaken)
  {
    if !Truthy(name) || !Truthy(days) || price == Undefined then Rejected(Failure(400, RequiredMessage))
    else if !NumberAtLeast(days, 1.0) then Rejected(Failure(400, ValidityMessage))
    else if !NumberAtLeast(price, 0.0) then Rejected(Failure(400, PriceMessage))
    else if nameTaken then Rejected(Failure(409, DuplicateMessage))
    else
      match StringCast(name, numberText)
      case None => InternalError
      case Some(n) =>
        match NewPlan(newId, n, days.x, price.x, now)
        case None => InternalError
        case Some(p) => Created(p)
  }

  // ----- properties -----

  /** Every plan the handler creates satisfies the schema, is active, and has both timestamps at `now`. */
  lemma CreatedIsValid(body: Option<Body>, nameTaken: bool, newId: string, now: Time, numberText: real -> string)
    requires CreatePlan(body, nameTaken, newId, now, numberText).Created?
    ensures var p := CreatePlan(body, nameTaken, newId, now, numberText).plan;
            ValidPlan(p) && p.id == newId && p.status == Active && p.createdAt == now && p.updatedAt == now
  {
  }

  /**
   * A string name, a validity of at least 1 and a non-negative price are
   * accepted when the name is free and not blank. The plan carries exactly
   * the trimmed name, the validity and the price.
   */
  lemma CreatedCarriesInput(body: Body, s: string, days: real, price: real, newId: string, now: Time, numberText: real -> string)
    requires Field(body, "plan_name") == Str(s) && Trim(s) != ""
    requires Field(body, "plan_validity_days") == Num(days) && days >= 1.0
    requires Field(body, "plan_price") == Num(price) && price >= 0.0
    ensures CreatePlan(Some(body), false, newId, now, numberText) == Created(Plan(newId, Trim(s), days, price, Active, now, now))
  {
    assert s != "" by {
      TrimStartShape(s);
    }
    assert Truthy(Str(s)) && Truthy(Num(days)) && Num(price) != Undefined;
    assert NumberAtLeast(Num(days), 1.0) && NumberAtLeast(Num(price), 0.0);
    assert StringCast(Str(s), numberText) == Some(s);
    assert CreatePlan(Some(body), false, newId, now, numberText) == Create(Str(s), Num(days), Num(price), false, newId, now, numberText);
    assert NewPlan(newId, s, days, price, now) == Some(Plan(newId, Trim(s), days, price, Active, now, now));
  }

  /**
   * The first check treats a validity of 0 as missing but lets a price of 0
   * through, since the price is compared only with `undefined`; a `null` price
   * then fails the number check.
   */
  lemma RequiredCheckTruthiness(body: Body, newId: string, now: Time, numberText: real -> string)
    requires Truthy(Field(body, "plan_name"))
    ensures Field(body, "plan_validity_days") == Num(0.0) ==>
              CreatePlan(Some(body), false, newId, now, numberText) == Rejected(Failure(400, RequiredMessage))
    ensures NumberAtLeast(Field(body, "plan_validity_days"), 1.0) && Field(body, "plan_price") == Null ==>
              CreatePlan(Some(body), false, newId, now, numberText) == Rejected(Failure(400, PriceMessage))
    ensures NumberAtLeast(Field(body, "plan_validity_days"), 1.0) && Field(body, "plan_price") == Num(0.0) ==>
              !CreatePlan(Some(body), false, newId, now, numberText).Rejected?
  {
  }

  /** The name lookup runs only after every field check: a rejected field is reported the same whether or not the name is taken. */
  lemma DuplicateCheckedLast(body: Option<Body>, newId: string, now: Time, numberText: real -> string)
    requires CreatePlan(body, false, newId, now, numberText).Rejected?
    ensures CreatePlan(body, true, newId, now, numberText) == CreatePlan(body, false, newId, now, numberText)
    ensures CreatePlan(body, true, newId, now, numberText).failure.status == 400
  {
  }

  /** A taken name with valid fields is a conflict. */
  lemma TakenNameConflicts(body: Body, newId: string, now: Time, numberText: real -> string)
    requires Truthy(Field(body, "plan_name"))
    requires NumberAtLeast(Field(body, "plan_validity_days"), 1.0) && NumberAtLeast(Field(body, "plan_price"), 0.0)
    ensures CreatePlan(Some(body), true, newId, now, numberText) == Rejected(Failure(409, DuplicateMessage))
  {
  }

  /**
   * A name of spaces only passes the handler's checks, unlike in the edit
   * handler, but the schema trims it to nothing and its required validator
   * throws, which the handler reports as a server error.
   */
  lemma BlankNameIsServerError(body: Body, s: string, newId: string, now: Time, numberText: real -> string)
    requires Field(body, "plan_name") == Str(s) && s != "" && AllSpace(s)
    requires NumberAtLeast(Field(body, "plan_validity_days"), 1.0) && NumberAtLeast(Field(body, "plan_price"), 0.0)
    ensures CreatePlan(Some(body), false, newId, now, numberText) == InternalError
  {
    TrimEmptyIffAllSpace(s);
  }
}
