/**
 * `/api/admin/plans/status`. `PATCH` validates the body, fetches the plan
 * document, assigns its status in place and saves it. `GET` validates the
 * `plan_id` parameter and projects the plan onto its name, status and
 * timestamps. The fetch is a parameter: the document found (`null` when
 * none), or a lookup that throws because the id cannot be cast to an
 * ObjectId.
 */
module PlanStatusRoute {
  import opened Wrappers
  import opened LocalCalendar
  import opened JsonBody
  import opened PlanModel

  /**
   * A fetched plan document. Assigning a field marks the document modified
   * only when the value changes, and saving moves the update time to the
   * save time only when the document was modified.
   */
  class PlanDocument {
    var plan: Plan
    var modified: bool

    function Value(): Plan
      reads this
    {
      plan
    }

    /** The document `findById` returns: unmodified. */
    constructor (p: Plan)
      ensures Value() == p && !modified
    {
      plan := p;
      modified := false;
    }

    /** `doc.status = s` */
    method SetStatus(s: PlanStatus)
      modifies this
      ensures Value() == old(Value()).(status := s)
      ensures modified == (old(modified) || s != old(Value()).status)
    {
      if s != plan.status {
        modified := true;
      }
      plan := plan.(status := s);
    }

    /** `await doc.save()` at `now`, with the schema's timestamps. */
    method Save(now: Time)
      modifies this
      ensures Value() == if old(modified) then old(Value()).(updatedAt := now) else old(Value())
      ensures !modified
    {
      if modified {
        plan := plan.(updatedAt := now);
      }
      modified := false;
    }
  }

  datatype StatusOutcome =
    | StatusUpdated(message: string, saved: Plan)
    | Rejected(failure: Failure)
    /** The 500 "Internal server error" of the `catch`. */
    | InternalError

  const IdRequiredMessage: string := "Plan ID is required"
  const StatusRequiredMessage: string := "Valid status is required (active or inactive)"
  const NotFoundMessage: string := "Plan not found"

  /** The success message, naming the new status. */
  function UpdatedMessage(s: PlanStatus): string {
    "Plan status updated to " + StatusText(s) + " successfully"
  }

  /** `PATCH`: the answer, from the body, the lookup and the plan found (`None` for `null`). */
  function Patch(body: Option<Body>, lookupThrows: bool, found: Option<Plan>, now: Time): (r: StatusOutcome)
    ensures r.StatusUpdated? ==> && body.Some? && !lookupThrows && found.Some?
                                 && StatusOf(Field(body.value, "status")) == Some(r.saved.status)
                                 && r.saved.(status := found.value.status, updatedAt := found.value.updatedAt) == found.value
                                 && r.message == UpdatedMessage(r.saved.status)
    ensures r.InternalError? ==> body.None? || lookupThrows
  {
    if body.None? then InternalError
    else
      var id := Field(body.value, "plan_id");
      var status := Field(body.value, "status");
      if !Truthy(id) then Rejected(Failure(400, IdRequiredMessage))
      else if !Truthy(status) || StatusOf(status).None? then Rejected(Failure(400, StatusRequiredMessage))
      else if lookupThrows then InternalError
      else if found.None? then Rejected(Failure(404, NotFoundMessage))
      else
        var s := StatusOf(status).value;
        var p := found.value;
        StatusUpdated(UpdatedMessage(s), if s != p.status then p.(status := s, updatedAt := now) else p)
  }

  /** `PATCH` as written: the status assigned on the fetched document, then saved. */
  method PatchStatus(body: Option<Body>, lookupThrows: bool, doc: PlanDocument?, now: Time) returns (r: StatusOutcome)
    requires doc != null ==> !doc.modified
    modifies doc
    ensures r == Patch(body, lookupThrows, if doc == null then None else Some(old(doc.Value())), now)
    ensures doc != null && r.StatusUpdated? ==> doc.Value() == r.saved
    ensures doc != null && !r.StatusUpdated? ==> doc.Value() == old(doc.Value())
  {
    if body.None? {
      return InternalError;
    }
    var id := Field(body.value, "plan_id");
    var status := Field(body.value, "status");
    if !Truthy(id) {
      return Rejected(Failure(400, IdRequiredMessage));
    }
    if !Truthy(status) || StatusOf(status).None? {
      return Rejected(Failure(400, StatusRequiredMessage));
    }
    if lookupThrows {
      return InternalError;
    }
    if doc == null {
      return Rejected(Failure(404, NotFoundMessage));
    }
    var s := StatusOf(status).value;
    doc.SetStatus(s);
    doc.Save(now);
    r := StatusUpdated(UpdatedMessage(s), doc.Value());
  }

  /** What `GET` reports of a plan. */
  datatype StatusView = StatusView(planId: string, planName: string, status: string, createdAt: Time, updatedAt: Time)

  datatype ViewOutcome =
    | Viewed(view: StatusView)
    | ViewRejected(failure: Failure)
    | ViewError

  /** `GET`: the `plan_id` query parameter (`None` when absent), the lookup and the plan found. */
  function GetStatus(planId: Option<string>, lookupThrows: bool, found: Option<Plan>): (r: ViewOutcome)
    ensures r.ViewError? <==> planId.Some? && planId.value != "" && lookupThrows
    ensures r.Viewed? ==> && found.Some? && !lookupThrows
                          && r.view.planId == found.value.id && r.view.planName == found.value.name
                          && r.view.status == StatusText(found.value.status)
  {
    if planId.None? || planId.value == "" then ViewRejected(Failure(400, IdRequiredMessage))
    else if lookupThrows then ViewError
    else if found.None? then ViewRejected(Failure(404, NotFoundMessage))
    else
      var p := found.value;
      Viewed(StatusView(p.id, p.name, StatusText(p.status), p.createdAt, p.updatedAt))
  }

  // ----- properties -----

  /** Both fields are validated before the plan is looked up: the answer is the same whatever the lookup would give. */
  lemma PatchValidatesFirst(body: Body, lookupThrows: bool, found: Option<Plan>, now: Time)
    requires !Truthy(Field(body, "plan_id")) || !OneOf(Field(body, "status"), ["active", "inactive"])
    ensures Patch(Some(body), lookupThrows, found, now) == Patch(Some(body), false, None, now)
    ensures Patch(Some(body), lookupThrows, found, now).Rejected?
    ensures Patch(Some(body), lookupThrows, found, now).failure.status == 400
  {
  }

  /**
   * A successful `PATCH` changes only the status, to the requested one. The
   * update time moves to `now` exactly when the status changes, and the
   * message names the new status.
   */
  lemma PatchChangesOnlyStatus(body: Body, found: Option<Plan>, now: Time)
    requires Patch(Some(body), false, found, now).StatusUpdated?
    ensures var r := Patch(Some(body), false, found, now);
            var p := found.value;
            && Field(body, "status") == Str(StatusText(r.saved.status))
            && r.saved.(status := p.status, updatedAt := p.updatedAt) == p
            && (r.saved.status != p.status ==> r.saved.updatedAt == now)
            && (r.saved.status == p.status ==> r.saved == p)
            && r.message == "Plan status updated to " + StatusText(r.saved.status) + " successfully"
  {
  }

  /** A valid plan stays valid under a status change, if the clock has not gone back before its creation. */
  lemma PatchKeepsValid(body: Body, found: Option<Plan>, now: Time)
    requires Patch(Some(body), false, found, now).StatusUpdated?
    requires ValidPlan(found.value) && found.value.createdAt <= now
    ensures ValidPlan(Patch(Some(body), false, found, now).saved)
  {
  }

  /** `GET` shows a plan's id, name, status and timestamps, and nothing of its validity or price. */
  lemma ViewIgnoresTerms(planId: string, p: Plan, days: real, price: real)
    requires planId != ""
    ensures GetStatus(Some(planId), false, Some(p)) == GetStatus(Some(planId), false, Some(p.(validityDays := days, price := price)))
    ensures var v := GetStatus(Some(planId), false, Some(p)).view;
            v.planId == p.id && v.planName == p.name && StatusOf(Str(v.status)) == Some(p.status)
  {
  }
}
