/** The campaigns data hook (src/hooks/useCampaigns.ts): the dashboard
    statistics over the loaded campaigns and the record `createCampaign`
    inserts. */
module Campaigns {
  import opened Common
  import opened AuthProvider
  import opened Ownership

  /** The fields of a campaign row the statistics read; a count may be null. */
  datatype Campaign = Campaign(id: string, status: string, sentCount: Option<int>, deliveredCount: Option<int>)

  datatype CampaignStats = CampaignStats(
    total: nat,
    active: nat,
    completed: nat,
    failed: nat,
    activeCampaigns: nat,
    totalCampaigns: nat,
    totalDelivered: int,
    deliveryRate: Ratio)

  const ZeroStats := CampaignStats(0, 0, 0, 0, 0, 0, 0, Ratio(0, 1))

  predicate IsActive(c: Campaign) { c.status == "sending" || c.status == "scheduled" }
  predicate IsCompleted(c: Campaign) { c.status == "completed" }
  predicate IsFailed(c: Campaign) { c.status == "failed" }

  /** `c.delivered_count || 0` and `c.sent_count || 0`. */
  function Delivered(c: Campaign): int { c.deliveredCount.GetOr(0) }
  function Sent(c: Campaign): int { c.sentCount.GetOr(0) }

  /** `(totalDelivered / totalSent) * 100`, or 0 when nothing was sent. */
  function DeliveryRate(delivered: int, sent: int): (r: Ratio)
    ensures r.den > 0
    ensures sent > 0 ==> r.num == 100 * delivered && r.den == sent
    ensures sent <= 0 ==> r.num == 0
  {
    if sent > 0 then Ratio(100 * delivered, sent) else Ratio(0, 1)
  }

  /** `getCampaignStats`; `None` stands for campaigns not loaded yet. */
  function GetCampaignStats(campaigns: Option<seq<Campaign>>): (s: CampaignStats)
    ensures campaigns.None? ==> s == ZeroStats
    ensures campaigns.Some? ==> s.total == s.totalCampaigns == |campaigns.value|
    ensures s.active == s.activeCampaigns
  {
    match campaigns
    case None => ZeroStats
    case Some(cs) =>
      var totalDelivered := Sum(cs, Delivered);
      var totalSent := Sum(cs, Sent);
      var active := Count(cs, IsActive);
      CampaignStats(|cs|, active, Count(cs, IsCompleted), Count(cs, IsFailed), active, |cs|,
                    totalDelivered, DeliveryRate(totalDelivered, totalSent))
  }

  /** An empty list gives the same all-zero statistics as no list at all. */
  lemma EmptyStatsAreZero()
    ensures GetCampaignStats(Some([])) == GetCampaignStats(None) == ZeroStats
  {
  }

  /** The status classes are disjoint, so their counts never exceed the total. */
  lemma StatusCountsBounded(campaigns: seq<Campaign>)
    ensures var s := GetCampaignStats(Some(campaigns));
      s.active + s.completed + s.failed <= s.total
  {
    CountDisjoint3(campaigns, IsActive, IsCompleted, IsFailed);
  }

  /** Each counter is the length of the matching `filter`. */
  lemma CountersAreFilterLengths(campaigns: seq<Campaign>)
    ensures var s := GetCampaignStats(Some(campaigns));
      s.active == |Filter(campaigns, IsActive)| && s.completed == |Filter(campaigns, IsCompleted)|
      && s.failed == |Filter(campaigns, IsFailed)|
  {
    CountIsFilterLength(campaigns, IsActive);
    CountIsFilterLength(campaigns, IsCompleted);
    CountIsFilterLength(campaigns, IsFailed);
  }

  /** Loading one more campaign raises the total by one, exactly one of the
      status counters by one when its status is counted, and the delivered
      sum by its delivered count (0 when missing). */
  lemma {:induction false} StatsOfAppended(campaigns: seq<Campaign>, c: Campaign)
    ensures var before, after := GetCampaignStats(Some(campaigns)), GetCampaignStats(Some(campaigns + [c]));
      after.total == before.total + 1
      && after.active == before.active + (if IsActive(c) then 1 else 0)
      && after.completed == before.completed + (if IsCompleted(c) then 1 else 0)
      && after.failed == before.failed + (if IsFailed(c) then 1 else 0)
      && after.totalDelivered == before.totalDelivered + (if c.deliveredCount.Some? then c.deliveredCount.value else 0)
  {
    CountAppend(campaigns, c, IsActive);
    CountAppend(campaigns, c, IsCompleted);
    CountAppend(campaigns, c, IsFailed);
    SumAppend(campaigns, c, Delivered);
  }

  /** With non-negative counts the rate is a quotient of non-negative sums,
      and it is 0 exactly when nothing was delivered or nothing was sent. */
  lemma DeliveryRateMeaning(campaigns: seq<Campaign>)
    requires forall i :: 0 <= i < |campaigns| ==> Delivered(campaigns[i]) >= 0 && Sent(campaigns[i]) >= 0
    ensures var s := GetCampaignStats(Some(campaigns));
      s.totalDelivered >= 0 && s.deliveryRate.num >= 0 && s.deliveryRate.den > 0
      && (s.deliveryRate.num == 0 <==> s.totalDelivered == 0 || Sum(campaigns, Sent) == 0)
  {
    SumNonNegative(campaigns, Delivered);
    SumNonNegative(campaigns, Sent);
  }

  // ---------------------------------------------------------------------
  // createCampaign

  datatype CampaignInput = CampaignInput(
    name: string,
    kind: string,
    content: string,
    message: Option<string>,
    recipientCount: Option<int>,
    status: Option<string>,
    scheduledAt: Option<string>)

  /** The row `createCampaign` inserts. */
  datatype CampaignRecord = CampaignRecord(
    name: string,
    kind: string,
    content: string,
    message: string,
    status: string,
    recipientCount: int,
    scheduledAt: Option<string>,
    userId: string)

  function CreateCampaign(c: AuthContextValue, input: CampaignInput): (r: Result<CampaignRecord>)
    ensures r.Ok? <==> OwnerId(c).Ok?
    ensures r.Err? ==> r.message == NoAuthenticatedUser
    ensures r.Ok? ==> r.value.userId == OwnerId(c).value
    ensures r.Ok? ==> r.value.name == input.name && r.value.kind == input.kind && r.value.content == input.content
    ensures r.Ok? ==> r.value.scheduledAt == input.scheduledAt
  {
    match OwnerId(c)
    case Err(m) => Err(m)
    case Ok(owner) =>
      Ok(CampaignRecord(input.name, input.kind, input.content,
                        OrElse(input.message, input.content),
                        OrElse(input.status, "draft"),
                        input.recipientCount.GetOr(0),
                        input.scheduledAt, owner))
  }

  /** The defaults: the message falls back to the content, the status to
      'draft', the recipient count to 0; supplied non-empty values are kept. */
  lemma CreateCampaignDefaults(c: AuthContextValue, input: CampaignInput)
    requires OwnerId(c).Ok?
    ensures var rec := CreateCampaign(c, input).value;
      (input.message.None? || input.message == Some("") ==> rec.message == input.content)
      && (input.message.Some? && input.message.value != "" ==> rec.message == input.message.value)
      && (input.status.None? || input.status == Some("") ==> rec.status == "draft")
      && (input.status.Some? && input.status.value != "" ==> rec.status == input.status.value)
      && (input.recipientCount.None? ==> rec.recipientCount == 0)
      && (input.recipientCount.Some? ==> rec.recipientCount == input.recipientCount.value)
      && rec.status != ""
      && (rec.message == "" ==> input.content == "")
  {
  }

  /** A client profile owns the campaigns it creates even with a user present. */
  lemma CampaignOwnedByClientProfile(c: AuthContextValue, input: CampaignInput)
    requires WellFormed(c) && c.clientProfile.Some?
    ensures CreateCampaign(c, input).Ok? && CreateCampaign(c, input).value.userId == c.clientProfile.value.id
  {
    ClientProfileWins(c);
  }
}
