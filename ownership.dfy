/** Owner resolution shared by the data hooks: whose rows a query reads and
    whose id a new record is stamped with. Two variants occur in the source. */
module Ownership {
  import opened Common
  import opened AuthProvider

  const NoAuthenticatedUser := "No authenticated user found"

  /** useContacts, useCampaigns and useUserCredits: the client profile's id
      when a client-profile session is active, else the user's id, else an error. */
  function OwnerId(c: AuthContextValue): Result<string> {
    if c.isClientProfile && c.clientProfile.Some? then Ok(c.clientProfile.value.id)
    else if c.user.Some? then Ok(c.user.value.id)
    else Err(NoAuthenticatedUser)
  }

  /** The id that keys a hook's query: `isClientProfile ? clientProfile?.id : user?.id`. */
  function QueryKeyId(c: AuthContextValue): Option<string> {
    if c.isClientProfile then
      (if c.clientProfile.Some? then Some(c.clientProfile.value.id) else None)
    else if c.user.Some? then Some(c.user.value.id)
    else None
  }

  /** `enabled: !!(user || clientProfile)`. */
  predicate QueryEnabled(c: AuthContextValue) {
    c.user.Some? || c.clientProfile.Some?
  }

  /** useMyActivatedServices and useServiceActivation: the query-key id, and
      an absent or empty id counts as not authenticated. */
  function CurrentUserId(c: AuthContextValue): (r: Option<string>)
    ensures r.Some? ==> r.value != "" && QueryKeyId(c) == r
  {
    var id := QueryKeyId(c);
    if id.Some? && id.value != "" then id else None
  }

  /** In a published context, owner resolution succeeds exactly when the
      query is enabled (that is, exactly when the caller is authenticated),
      and the query is then keyed by the owning id. */
  lemma OwnerResolvedIffEnabled(c: AuthContextValue)
    requires WellFormed(c)
    ensures OwnerId(c).Ok? <==> QueryEnabled(c)
    ensures OwnerId(c).Ok? <==> c.isAuthenticated
    ensures OwnerId(c).Err? ==> OwnerId(c).message == NoAuthenticatedUser
    ensures QueryEnabled(c) ==> QueryKeyId(c) == Some(OwnerId(c).value)
  {
  }

  /** The client profile wins over the platform user whenever both are present. */
  lemma ClientProfileWins(c: AuthContextValue)
    requires WellFormed(c)
    requires c.clientProfile.Some?
    ensures OwnerId(c) == Ok(c.clientProfile.value.id)
    ensures QueryKeyId(c) == Some(c.clientProfile.value.id)
  {
  }

  /** The two variants agree wherever the stricter one finds an id. */
  lemma CurrentUserIdAgrees(c: AuthContextValue)
    requires WellFormed(c)
    ensures CurrentUserId(c).Some? ==> OwnerId(c) == Ok(CurrentUserId(c).value)
    ensures OwnerId(c).Ok? && OwnerId(c).value != "" ==> CurrentUserId(c) == Some(OwnerId(c).value)
  {
  }
}
