/** The caller's activated services (src/hooks/useMyActivatedServices.ts):
    the join of active subscriptions with the service catalogue. Both reads
    are inputs. */
module ActivatedServices {
  import opened Common
  import opened AuthProvider
  import opened Ownership

  /** A `user_service_subscriptions` row; nullable columns are options. */
  datatype Subscription = Subscription(
    id: string,
    userId: Option<string>,
    serviceId: Option<string>,
    status: string,
    activatedAt: Option<string>,
    createdAt: string)

  /** A `services_catalog` row as selected. */
  datatype CatalogService = CatalogService(id: string, serviceName: Option<string>, serviceType: Option<string>)

  datatype ServiceSummary = ServiceSummary(id: string, serviceName: string, serviceType: string)

  datatype Activation = Activation(
    id: string,
    userId: string,
    serviceId: string,
    isActive: bool,
    activatedAt: string,
    activatedBy: string,
    service: ServiceSummary)

  datatype SubscriptionsRead = SubscriptionsError(message: string) | Subscriptions(rows: Option<seq<Subscription>>)
  datatype CatalogRead = CatalogError(message: string) | Catalog(rows: Option<seq<CatalogService>>)

  const UnknownService := ServiceSummary("", "Unknown Service", "unknown")

  /** `new Map(services.map(s => [s.id, s]))`: a later row with the same id wins. */
  function CatalogMap(services: seq<CatalogService>): (m: map<string, CatalogService>)
    ensures forall i :: 0 <= i < |services| ==> services[i].id in m
    ensures forall id :: id in m ==> m[id].id == id
    decreases |services|
  {
    if |services| == 0 then map[]
    else
      var last := services[|services| - 1];
      var m := CatalogMap(services[..|services| - 1]);
      assert forall i :: 0 <= i < |services| - 1 ==> services[i] == services[..|services| - 1][i];
      m[last.id := last]
  }

  /** The catalogue entry a subscription is shown with; `get(null)` finds nothing. */
  function ServiceOf(m: map<string, CatalogService>, serviceId: Option<string>): (s: ServiceSummary)
    ensures serviceId.None? || serviceId.value !in m ==> s == UnknownService
  {
    if serviceId.Some? && serviceId.value in m then
      var e := m[serviceId.value];
      ServiceSummary(e.id, OrElse(e.serviceName, "Unknown Service"), OrElse(e.serviceType, "unknown"))
    else UnknownService
  }

  /** One subscription in activation form. */
  function ToActivation(sub: Subscription, owner: string, m: map<string, CatalogService>): (a: Activation)
    ensures a.id == sub.id && a.isActive == (sub.status == "active")
    ensures a.userId == a.activatedBy == OrElse(sub.userId, owner)
    ensures a.serviceId == OrElse(sub.serviceId, "")
    ensures a.activatedAt == OrElse(sub.activatedAt, sub.createdAt)
    ensures a.service == ServiceOf(m, sub.serviceId)
  {
    Activation(sub.id, OrElse(sub.userId, owner), OrElse(sub.serviceId, ""), sub.status == "active",
               OrElse(sub.activatedAt, sub.createdAt), OrElse(sub.userId, owner), ServiceOf(m, sub.serviceId))
  }

  predicate HasServiceId(sub: Subscription) {
    sub.serviceId.Some? && sub.serviceId.value != ""
  }

  function Activations(subs: seq<Subscription>, owner: string, m: map<string, CatalogService>): (r: seq<Activation>)
    ensures |r| == |subs|
    ensures forall i :: 0 <= i < |subs| ==> r[i] == ToActivation(subs[i], owner, m)
  {
    seq(|subs|, i requires 0 <= i < |subs| => ToActivation(subs[i], owner, m))
  }

  /** The query function. */
  function MyActivatedServices(c: AuthContextValue, subscriptions: SubscriptionsRead, catalog: CatalogRead): (r: Result<seq<Activation>>)
    ensures CurrentUserId(c).None? ==> r == Ok([])
    ensures subscriptions.SubscriptionsError? && CurrentUserId(c).Some? ==> r == Err(subscriptions.message)
  {
    match CurrentUserId(c)
    case None => Ok([])
    case Some(owner) =>
      match subscriptions
      case SubscriptionsError(m) => Err(m)
      case Subscriptions(rows) =>
        var subs := rows.GetOr([]);
        if |subs| == 0 then Ok([])
        else if |Filter(subs, HasServiceId)| == 0 then Ok([])
        else
          match catalog
          case CatalogError(m) => Err(m)
          case Catalog(services) => Ok(Activations(subs, owner, CatalogMap(services.GetOr([]))))
  }

  /** Nothing is returned without an owning id, without subscriptions, or
      when no subscription names a service. */
  lemma EmptyCases(c: AuthContextValue, rows: Option<seq<Subscription>>, catalog: CatalogRead)
    requires CurrentUserId(c).Some?
    requires rows.None? || forall i :: 0 <= i < |rows.value| ==> !HasServiceId(rows.value[i])
    ensures MyActivatedServices(c, Subscriptions(rows), catalog) == Ok([])
  {
    if rows.Some? && |rows.value| > 0 {
      FilterNone(rows.value, HasServiceId);
    }
  }

  /** Otherwise there is exactly one activation per subscription, in
      subscription order, even for services missing from the catalogue, and
      the owner is the one the query was keyed by. */
  lemma OneActivationPerSubscription(c: AuthContextValue, subs: seq<Subscription>, services: seq<CatalogService>, k: nat)
    requires CurrentUserId(c).Some?
    requires k < |subs| && HasServiceId(subs[k])
    ensures var r := MyActivatedServices(c, Subscriptions(Some(subs)), Catalog(Some(services)));
      r.Ok? && |r.value| == |subs|
      && forall i :: 0 <= i < |subs| ==>
           r.value[i].id == subs[i].id
           && (subs[i].userId.None? ==> r.value[i].userId == CurrentUserId(c).value == QueryKeyId(c).value)
           && (subs[i].serviceId.Some? && subs[i].serviceId.value !in CatalogMap(services) ==>
                 r.value[i].service == UnknownService)
    ensures MyActivatedServices(c, Subscriptions(Some(subs)), Catalog(Some(services)))
      == Ok(Activations(subs, CurrentUserId(c).value, CatalogMap(services)))
  {
    assert subs[k] in Filter(subs, HasServiceId);
  }

  /** Once some subscription names a service, a failed catalogue read is
      thrown on, whatever the subscriptions are. */
  lemma CatalogErrorPassedOn(c: AuthContextValue, subs: seq<Subscription>, message: string, k: nat)
    requires CurrentUserId(c).Some?
    requires k < |subs| && HasServiceId(subs[k])
    ensures MyActivatedServices(c, Subscriptions(Some(subs)), CatalogError(message)) == Err(message)
  {
    assert subs[k] in Filter(subs, HasServiceId);
  }

  /** Only active subscriptions are fetched, so every activation is active. */
  lemma FetchedActivationsAreActive(subs: seq<Subscription>, owner: string, m: map<string, CatalogService>)
    requires forall i :: 0 <= i < |subs| ==> subs[i].status == "active"
    ensures forall a :: a in Activations(subs, owner, m) ==> a.isActive
  {
  }

  /** A catalogue entry found for the subscription's service id is the one shown. */
  lemma CatalogEntryShown(services: seq<CatalogService>, sub: Subscription, owner: string, i: nat)
    requires i < |services| && sub.serviceId == Some(services[i].id)
    requires forall j :: i < j < |services| ==> services[j].id != services[i].id
    ensures ToActivation(sub, owner, CatalogMap(services)).service.id == services[i].id
    ensures services[i].serviceName.Some? && services[i].serviceName.value != "" ==>
      ToActivation(sub, owner, CatalogMap(services)).service.serviceName == services[i].serviceName.value
  {
    CatalogMapLastWins(services, i);
  }

  lemma {:induction false} CatalogMapLastWins(services: seq<CatalogService>, i: nat)
    requires i < |services|
    requires forall j :: i < j < |services| ==> services[j].id != services[i].id
    ensures CatalogMap(services)[services[i].id] == services[i]
    decreases |services|
  {
    if i < |services| - 1 {
      var init := services[..|services| - 1];
      assert init[i] == services[i];
      CatalogMapLastWins(init, i);
    }
  }
}
