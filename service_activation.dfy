/** Service activation requests (src/hooks/useServiceActivation.ts): the row
    `requestServiceActivation` inserts into `service_activation_requests`.
    The insert and its reply are left out; the model is the record it sends
    or the error it raises first. */
module ServiceActivation {
  import opened Common
  import opened AuthProvider
  import opened Ownership

  const NotAuthenticated := "User not authenticated"
  const DefaultJustification := "Service access request"
  const DefaultUsage := "Standard usage"
  const DefaultPriority := "medium"
  const Pending := "pending"

  /** The mutation's argument; an omitted property is `None`. */
  datatype ActivationRequest = ActivationRequest(
    serviceId: int,
    businessJustification: Option<string>,
    expectedUsage: Option<string>,
    priority: Option<string>)

  /** The row sent to `service_activation_requests`. */
  datatype RequestRecord = RequestRecord(
    userId: string,
    serviceId: int,
    businessJustification: string,
    expectedUsage: string,
    priority: string,
    status: string)

  /** The record the mutation inserts, or the error raised before any write. */
  function RequestServiceActivation(c: AuthContextValue, req: ActivationRequest): (r: Result<RequestRecord>)
    ensures r.Err? <==> CurrentUserId(c).None?
    ensures r.Err? ==> r.message == NotAuthenticated
    ensures r.Ok? ==> r.value.userId == CurrentUserId(c).value && r.value.serviceId == req.serviceId
    ensures r.Ok? ==> r.value.status == Pending
  {
    match CurrentUserId(c)
    case None => Err(NotAuthenticated)
    case Some(owner) =>
      Ok(RequestRecord(owner, req.serviceId,
                       OrElse(req.businessJustification, DefaultJustification),
                       OrElse(req.expectedUsage, DefaultUsage),
                       req.priority.GetOr(DefaultPriority),
                       Pending))
  }

  /** The owner is the client profile for a client-profile session and the
      user otherwise; without one the request fails. */
  lemma RequestOwner(c: AuthContextValue, req: ActivationRequest)
    requires WellFormed(c)
    ensures c.clientProfile.Some? && c.clientProfile.value.id != "" ==>
      RequestServiceActivation(c, req).Ok? && RequestServiceActivation(c, req).value.userId == c.clientProfile.value.id
    ensures c.clientProfile.None? && c.user.Some? && c.user.value.id != "" ==>
      RequestServiceActivation(c, req).Ok? && RequestServiceActivation(c, req).value.userId == c.user.value.id
    ensures !c.isAuthenticated ==> RequestServiceActivation(c, req) == Err(NotAuthenticated)
  {
  }

  /** The defaults: justification and usage fall back when absent or empty,
      the priority only when absent (a destructuring default). */
  lemma RequestDefaults(c: AuthContextValue, req: ActivationRequest)
    requires CurrentUserId(c).Some?
    ensures var rec := RequestServiceActivation(c, req).value;
      (req.businessJustification.None? || req.businessJustification == Some("") ==> rec.businessJustification == DefaultJustification)
      && (req.businessJustification.Some? && req.businessJustification.value != "" ==>
            rec.businessJustification == req.businessJustification.value)
      && (req.expectedUsage.None? || req.expectedUsage == Some("") ==> rec.expectedUsage == DefaultUsage)
      && (req.expectedUsage.Some? && req.expectedUsage.value != "" ==> rec.expectedUsage == req.expectedUsage.value)
      && (req.priority.None? ==> rec.priority == DefaultPriority)
      && (req.priority.Some? ==> rec.priority == req.priority.value)
      && rec.businessJustification != "" && rec.expectedUsage != ""
  {
  }

}
