/** The authentication context (src/components/auth/AuthProvider.tsx) and the
    values it carries: platform users and sessions, tenant client profiles,
    and the `clientProfile` entry of the browser's local storage. */
module AuthProvider {
  import opened Common

  /** A platform user; only its id is used by the modelled code. */
  datatype User = User(id: string)

  /** A platform session; `session.user` may be absent. */
  datatype Session = Session(user: Option<User>)

  /** A tenant client-profile login, as persisted in local storage. */
  datatype ClientProfile = ClientProfile(id: string, clientName: string, email: string, phone: Option<string>)

  /** What `localStorage.getItem('clientProfile')` can hold when the key is
      present: the JSON text of a profile, text that `JSON.parse` rejects (or
      a storage that cannot be read), or the empty string. */
  datatype StoredEntry = Wellformed(profile: ClientProfile) | Malformed | EmptyString

  datatype AuthContextValue = AuthContextValue(
    user: Option<User>,
    session: Option<Session>,
    clientProfile: Option<ClientProfile>,
    isLoading: bool,
    userRole: Option<string>,
    isAuthenticated: bool,
    isClientProfile: bool)

  /** The value the provider publishes: the five state cells passed through,
      plus the two derived flags. */
  function ProvideContext(user: Option<User>, session: Option<Session>, clientProfile: Option<ClientProfile>,
                          isLoading: bool, userRole: Option<string>): (c: AuthContextValue)
    ensures c.user == user && c.session == session && c.clientProfile == clientProfile
    ensures c.isLoading == isLoading && c.userRole == userRole
    ensures c.isAuthenticated <==> user.Some? || clientProfile.Some?
    ensures c.isClientProfile <==> clientProfile.Some?
    ensures c.isClientProfile ==> c.isAuthenticated
    ensures WellFormed(c)
  {
    AuthContextValue(user, session, clientProfile, isLoading, userRole,
                     user.Some? || clientProfile.Some?, clientProfile.Some?)
  }

  /** The relation between the derived flags and the cells that every
      published context satisfies; the hooks rely on it. */
  predicate WellFormed(c: AuthContextValue) {
    && (c.isAuthenticated <==> c.user.Some? || c.clientProfile.Some?)
    && (c.isClientProfile <==> c.clientProfile.Some?)
  }
}
