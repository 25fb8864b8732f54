/**
 * `PUT /api/admin/plans/edit`: the identifier checks, then one check per
 * supplied field in the order name, validity, price, status, each adding
 * its field to the partial update; the first failure is returned and
 * nothing is written. The database answers are parameters: whether the id
 * is a well-formed ObjectId, the plan found by id, and whether another plan
 * already has the requested name.
 */
module PlanEditRoute {
  import opened Wrappers
  import opened JsText
  import opened LocalCalendar
  import opened JsonBody
  import opened PlanModel

  datatype EditOutcome =
    | Updated(update: map<string, Json>, plan: Plan)
    | Rejected(failure: Failure)
    /** The 500 "Internal server error" of the `catch`: a body that is not JSON, or a name without `trim`. */
    | InternalError

  const IdRequiredMessage: string := "plan_id is required"
  const IdFormatMessage: string := "Invalid plan_id format"
  const NotFoundMessage: string := "Plan not found"
  const EmptyNameMessage: string := "plan_name cannot be empty"
  const DuplicateMessage: string := "Plan with this name already exists"
  const ValidityMessage: string := "plan_validity_days must be a positive number"
  const PriceMessage: string := "plan_price must be a non-negative number"
  const StatusMessage: string := "status must be either 'active' or 'inactive'"

  /** The fields a request may change. */
  const Editable: set<string> := {"plan_name", "plan_validity_days", "plan_price", "status"}

  /** The fields among `keys` the body supplies, with the values it gives them. */
  function SuppliedAmong(body: Body, keys: set<string>): (u: map<string, Json>)
    ensures u.Keys <= keys
    ensures forall k :: k in u <==> k in keys && Field(body, k) != Undefined
    ensures forall k :: k in u ==> u[k] == Field(body, k)
  {
    map k | k in keys && k in body && body[k] != Undefined :: body[k]
  }

  /** The editable fields the body supplies. */
  function Supplied(body: Body): map<string, Json> {
    SuppliedAmong(body, Editable)
  }

  /** Checking one more field adds it to the update exactly when the body supplies it. */
  lemma SuppliedStep(body: Body, keys: set<string>, k: string, keys': set<string>)
    requires keys' == keys + {k}
    ensures SuppliedAmong(body, keys') ==
              if Field(body, k) != Undefined then SuppliedAmong(body, keys)[k := Field(body, k)] else SuppliedAmong(body, keys)
  {
  }

  /**
   * The first failing field check, in the handler's order; `None` when every
   * supplied field is acceptable. A name that is not a string has no `trim`.
   */
  function FieldFailure(body: Body, nameTakenByOther: bool): Option<EditOutcome> {
    var name := Field(body, "plan_name");
    var days := Field(body, "plan_validity_days");
    var price := Field(body, "plan_price");
    var status := Field(body, "status");
    if name != Undefined && !name.Str? then Some(InternalError)
    else if name.Str? && Trim(name.s) == "" then Some(Rejected(Failure(400, EmptyNameMessage)))
    else if name.Str? && nameTakenByOther then Some(Rejected(Failure(409, DuplicateMessage)))
    else if days != Undefined && !NumberAtLeast(days, 1.0) then Some(Rejected(Failure(400, ValidityMessage)))
    else if price != Undefined && !NumberAtLeast(price, 0.0) then Some(Rejected(Failure(400, PriceMessage)))
    else if status != Undefined && StatusOf(status).None? then Some(Rejected(Failure(400, StatusMessage)))
    else None
  }

  /**
   * `findByIdAndUpdate(plan_id, updateData)` at `now`: each field in the
   * update replaces the stored one (the schema trims the name) and the
   * update timestamp moves to `now`.
   */
  function ApplyUpdate(p: Plan, u: map<string, Json>, now: Time): Plan {
    p.(name := if "plan_name" in u && u["plan_name"].Str? then Trim(u["plan_name"].s) else p.name,
       validityDays := if "plan_validity_days" in u && u["plan_validity_days"].Num? then u["plan_validity_days"].x else p.validityDays,
       price := if "plan_price" in u && u["plan_price"].Num? then u["plan_price"].x else p.price,
       status := if "status" in u && StatusOf(u["status"]).Some? then StatusOf(u["status"]).value else p.status,
       updatedAt := now)
  }

  /** The handler's answer: `body` is `None` when the request is not JSON. */
  function Edit(body: Option<Body>, isValidId: Json -> bool, existing: Option<Plan>, nameTakenByOther: bool, now: Time): (r: EditOutcome)
    ensures r.Updated? ==> && existing.Some? && r.plan.id == existing.value.id
                           && r.plan.createdAt == existing.value.createdAt && r.plan.updatedAt == now
    ensures r.Rejected? && r.failure.status == 404 ==> existing.None?
  {
    if body.None? then InternalError
    else
      var id := Field(body.value, "plan_id");
      if !Truthy(id) then Rejected(Failure(400, IdRequiredMessage))
      else if !isValidId(id) then Rejected(Failure(400, IdFormatMessage))
      else if existing.None? then Rejected(Failure(404, NotFoundMessage))
      else
        match FieldFailure(body.value, nameTakenByOther)
        case Some(outcome) => outcome
        case None => Updated(Supplied(body.value), ApplyUpdate(existing.value, Supplied(body.value), now))
  }

  /** The handler as written: early returns between steps that add each accepted field to `updateData`. */
  method EditPlan(body: Option<Body>, isValidId: Json -> bool, existing: Option<Plan>, nameTakenByOther: bool, now: Time)
    returns (r: EditOutcome)
    ensures r == Edit(body, isValidId, existing, nameTakenByOther, now)
  {
    if body.None? {
      return InternalError;
    }
    var b := body.value;
    var id := Field(b, "plan_id");
    if !Truthy(id) {
      return Rejected(Failure(400, IdRequiredMessage));
    }
    if !isValidId(id) {
      return Rejected(Failure(400, IdFormatMessage));
    }
    if existing.None? {
      return Rejected(Failure(404, NotFoundMessage));
    }
    var failure, updateData := CheckFields(b, nameTakenByOther);
    if failure.Some? {
      return failure.value;
    }
    r := Updated(updateData, ApplyUpdate(existing.value, updateData, now));
  }

  /** The field checks of the handler, filling `updateData` as each supplied field passes. */
  method CheckFields(b: Body, nameTakenByOther: bool) returns (failure: Option<EditOutcome>, updateData: map<string, Json>)
    ensures failure == FieldFailure(b, nameTakenByOther)
    ensures failure.None? ==> updateData == Supplied(b)
  {
    updateData := map[];
    assert updateData == SuppliedAmong(b, {});
    var name := Field(b, "plan_name");
    if name != Undefined {
      if !name.Str? {
        return Some(InternalError), updateData;
      }
      if Trim(name.s) == "" {
        return Some(Rejected(Failure(400, EmptyNameMessage))), updateData;
      }
      if nameTakenByOther {
        return Some(Rejected(Failure(409, DuplicateMessage))), updateData;
      }
      updateData := updateData["plan_name" := name];
    }
    SuppliedStep(b, {}, "plan_name", {"plan_name"});
    var days := Field(b, "plan_validity_days");
    if days != Undefined {
      if !NumberAtLeast(days, 1.0) {
        return Some(Rejected(Failure(400, ValidityMessage))), updateData;
      }
      updateData := updateData["plan_validity_days" := days];
    }
    SuppliedStep(b, {"plan_name"}, "plan_validity_days", {"plan_name", "plan_validity_days"});
    var price := Field(b, "plan_price");
    if price != Undefined {
      if !NumberAtLeast(price, 0.0) {
        return Some(Rejected(Failure(400, PriceMessage))), updateData;
      }
      updateData := updateData["plan_price" := price];
    }
    SuppliedStep(b, {"plan_name", "plan_validity_days"}, "plan_price", {"plan_name", "plan_validity_days", "plan_price"});
    var status := Field(b, "status");
    if status != Undefined {
      if StatusOf(status).None? {
        return Some(Rejected(Failure(400, StatusMessage))), updateData;
      }
      updateData := updateData["status" := status];
    }
    SuppliedStep(b, {"plan_name", "plan_validity_days", "plan_price"}, "status", Editable);
    failure := None;
  }

  // ----- properties -----

  /** The identifier is checked before anything else: missing, then malformed, then unknown, whatever the other fields hold. */
  lemma IdChecksFirst(body: Body, isValidId: Json -> bool, existing: Option<Plan>, nameTakenByOther: bool, now: Time)
    ensures !Truthy(Field(body, "plan_id")) ==>
              Edit(Some(body), isValidId, existing, nameTakenByOther, now) == Rejected(Failure(400, IdRequiredMessage))
    ensures Truthy(Field(body, "plan_id")) && !isValidId(Field(body, "plan_id")) ==>
              Edit(Some(body), isValidId, existing, nameTakenByOther, now) == Rejected(Failure(400, IdFormatMessage))
    ensures Truthy(Field(body, "plan_id")) && isValidId(Field(body, "plan_id")) && existing.None? ==>
              Edit(Some(body), isValidId, existing, nameTakenByOther, now) == Rejected(Failure(404, NotFoundMessage))
  {
  }

  /**
   * An accepted edit changes exactly the supplied fields, to the supplied
   * values (the name trimmed), keeps the id and the creation time, and
   * moves the update time to `now`.
   */
  lemma EditTouchesOnlySupplied(body: Body, isValidId: Json -> bool, existing: Option<Plan>, nameTakenByOther: bool, now: Time)
    requires Edit(Some(body), isValidId, existing, nameTakenByOther, now).Updated?
    ensures var r := Edit(Some(body), isValidId, existing, nameTakenByOther, now);
            var old_ := existing.value;
            && r.update.Keys <= Editable
            && (forall k :: k in r.update ==> r.update[k] == Field(body, k))
            && r.plan.id == old_.id && r.plan.createdAt == old_.createdAt && r.plan.updatedAt == now
            && (Field(body, "plan_name") == Undefined ==> r.plan.name == old_.name)
            && (Field(body, "plan_name").Str? ==> r.plan.name == Trim(Field(body, "plan_name").s))
            && (Field(body, "plan_validity_days") == Undefined ==> r.plan.validityDays == old_.validityDays)
            && (Field(body, "plan_validity_days").Num? ==> r.plan.validityDays == Field(body, "plan_validity_days").x)
            && (Field(body, "plan_price") == Undefined ==> r.plan.price == old_.price)
            && (Field(body, "plan_price").Num? ==> r.plan.price == Field(body, "plan_price").x)
            && (Field(body, "status") == Undefined ==> r.plan.status == old_.status)
            && (Field(body, "status") != Undefined ==> Field(body, "status") == Str(StatusText(r.plan.status)))
  {
  }

  /** A body with nothing to change succeeds with an empty update, and only the update time moves. */
  lemma EmptyEditKeepsPlan(body: Body, isValidId: Json -> bool, plan: Plan, nameTakenByOther: bool, now: Time)
    requires Truthy(Field(body, "plan_id")) && isValidId(Field(body, "plan_id"))
    requires forall k :: k in Editable ==> Field(body, k) == Undefined
    ensures Edit(Some(body), isValidId, Some(plan), nameTakenByOther, now) == Updated(map[], plan.(updatedAt := now))
  {
    assert Supplied(body) == map[];
    assert FieldFailure(body, nameTakenByOther).None? by {
      assert Field(body, "plan_name") == Undefined;
      assert Field(body, "plan_validity_days") == Undefined;
      assert Field(body, "plan_price") == Undefined;
      assert Field(body, "status") == Undefined;
    }
  }

  /** An accepted edit of a valid plan leaves a valid plan, provided the clock has not gone back before its creation. */
  lemma EditKeepsValid(body: Body, isValidId: Json -> bool, existing: Option<Plan>, nameTakenByOther: bool, now: Time)
    requires Edit(Some(body), isValidId, existing, nameTakenByOther, now).Updated?
    requires ValidPlan(existing.value) && existing.value.createdAt <= now
    ensures ValidPlan(Edit(Some(body), isValidId, existing, nameTakenByOther, now).plan)
  {
    var u := Supplied(body);
    assert FieldFailure(body, nameTakenByOther).None?;
    assert Edit(Some(body), isValidId, existing, nameTakenByOther, now).plan == ApplyUpdate(existing.value, u, now);
    assert "plan_name" in u ==> u["plan_name"] == Field(body, "plan_name");
    assert "plan_validity_days" in u ==> u["plan_validity_days"] == Field(body, "plan_validity_days");
    assert "plan_price" in u ==> u["plan_price"] == Field(body, "plan_price");
    UpdateKeepsValid(existing.value, u, now);
  }

  /** Applying an update whose name, validity and price the schema accepts keeps a plan valid. */
  lemma UpdateKeepsValid(p: Plan, u: map<string, Json>, now: Time)
    requires ValidPlan(p) && p.createdAt <= now
    requires "plan_name" in u && u["plan_name"].Str? ==> Trim(u["plan_name"].s) != ""
    requires "plan_validity_days" in u && u["plan_validity_days"].Num? ==> u["plan_validity_days"].x >= 1.0
    requires "plan_price" in u && u["plan_price"].Num? ==> u["plan_price"].x >= 0.0
    ensures ValidPlan(ApplyUpdate(p, u, now))
  {
    if "plan_name" in u && u["plan_name"].Str? {
      TrimmedIff(u["plan_name"].s);
    }
  }

  /** The fields are checked in order: a blank name is reported even when the validity, the price and the status are wrong too. */
  lemma NameCheckedFirst(body: Body, isValidId: Json -> bool, plan: Plan, nameTakenByOther: bool, now: Time, s: string)
    requires Truthy(Field(body, "plan_id")) && isValidId(Field(body, "plan_id"))
    requires Field(body, "plan_name") == Str(s) && AllSpace(s)
    ensures Edit(Some(body), isValidId, Some(plan), nameTakenByOther, now) == Rejected(Failure(400, EmptyNameMessage))
  {
    TrimEmptyIffAllSpace(s);
  }
}
