/** Session bootstrap and role resolution
    (src/components/auth/auth-provider/useAuthState.ts): five state cells and
    the `clientProfile` storage key, changed by the start-up session check
    and by platform auth events.

    Remote reads are inputs (`RoleRead`, `SessionCheck`); a read that loses
    its race against the timeout is the rejection the timer raises. The
    role resolution an auth event schedules with `setTimeout` is kept in a
    list of pending user ids, and `DeliverScheduledRole` lets any pending one
    complete, in any order. The start-up `getSession` call awaits twice (the
    session read, then the role of the session's user); it is three steps,
    and auth events may run between them. */
module AuthState {
  import opened Common
  import opened AuthProvider

  const DefaultRole := "user"
  const RetryDelayMs := 1000

  /** An error object from a remote call; its `message` may be missing. */
  datatype DbError = DbError(message: Option<string>)

  /** One read of `profiles.role`: an answer `{data, error}`, or a rejected
      promise (a thrown error, or the 5000 ms timeout's
      `Error('Role fetch timeout')`). */
  datatype RoleRead =
    | Answered(role: Option<Option<string>>, error: Option<DbError>)  // role: None = no row, Some(None) = null role
    | Rejected(reason: Option<string>)

  datatype RoleResolution = RoleResolution(role: string, readCount: nat, waitedMs: nat)

  /** `message?.includes('Failed to fetch') || message?.includes('timeout')`. */
  predicate IsNetworkMessage(m: Option<string>) {
    m.Some? && (Contains(m.value, "Failed to fetch") || Contains(m.value, "timeout"))
  }

  /** A JavaScript-truthy role: present and not the empty string. */
  predicate TruthyRole(r: Option<string>) {
    r.Some? && r.value != ""
  }

  /** `fetchUserRole`: `first` is the first read, `retry` the read made after
      the 1000 ms pause (used only when the first read reports a
      non-network error). */
  function FetchUserRole(first: RoleRead, retry: RoleRead): (r: RoleResolution)
    ensures r.role != ""
    ensures r.readCount == 2 <==> first.Answered? && first.error.Some? && !IsNetworkMessage(first.error.value.message)
    ensures r.readCount == 1 || r.readCount == 2
    ensures r.waitedMs == (if r.readCount == 2 then RetryDelayMs else 0)
    ensures r.role == DefaultRole
            || (first.Answered? && first.error.None? && first.role.Some? && Some(r.role) == first.role.value)
            || (r.readCount == 2 && retry.Answered? && retry.error.None? && retry.role.Some? && Some(r.role) == retry.role.value)
  {
    match first
    case Rejected(_) => RoleResolution(DefaultRole, 1, 0)
    case Answered(row, error) =>
      if error.Some? then
        if IsNetworkMessage(error.value.message) then RoleResolution(DefaultRole, 1, 0)
        else
          var role :=
            match retry
            case Answered(retryRow, retryError) =>
              if retryError.None? && retryRow.Some? && TruthyRole(retryRow.value) then retryRow.value.value
              else DefaultRole
            case Rejected(_) => DefaultRole;
          RoleResolution(role, 2, RetryDelayMs)
      else if row.Some? && TruthyRole(row.value) then RoleResolution(row.value.value, 1, 0)
      else RoleResolution(DefaultRole, 1, 0)
  }

  /** A role read that times out yields 'user' without a retry. */
  lemma RoleTimeoutYieldsUser(retry: RoleRead)
    ensures FetchUserRole(Rejected(Some("Role fetch timeout")), retry) == RoleResolution(DefaultRole, 1, 0)
  {
  }

  /** A stored role, found on the first read, is returned as it is. */
  lemma RoleFoundFirstTime(role: string, retry: RoleRead)
    requires role != ""
    ensures FetchUserRole(Answered(Some(Some(role)), None), retry) == RoleResolution(role, 1, 0)
  {
  }

  /** A network-class first error ends the resolution at once; any other
      error is retried exactly once, and only the retry's answer matters. */
  lemma RoleRetryPolicy(message: Option<string>, row: Option<Option<string>>, retry: RoleRead)
    ensures IsNetworkMessage(message) ==>
      FetchUserRole(Answered(row, Some(DbError(message))), retry) == RoleResolution(DefaultRole, 1, 0)
    ensures !IsNetworkMessage(message) ==>
      && FetchUserRole(Answered(row, Some(DbError(message))), retry).readCount == 2
      && FetchUserRole(Answered(row, Some(DbError(message))), retry).waitedMs == 1000
      && FetchUserRole(Answered(row, Some(DbError(message))), retry).role
         == FetchUserRole(retry, Rejected(None)).role
  {
  }

  datatype AuthEvent = InitialSession | SignedIn | SignedOut | TokenRefreshed | UserUpdated | PasswordRecovery

  /** The start-up session read: an answer `{data: {session}, error}`, or a
      rejected promise (a thrown error, or the 10000 ms timeout's
      `Error('Session check timeout')`). */
  datatype SessionCheck =
    | SessionAnswered(session: Option<Session>, error: Option<DbError>)
    | SessionRejected(reason: Option<string>)

  /** Where the start-up `getSession` call is: not started, waiting for the
      session read, waiting for the role of the session's user, or finished. */
  datatype BootPhase = NotStarted | AwaitingSession | AwaitingRole | Finished

  /** The five cells, the storage key, the user ids whose role resolution
      has been scheduled but has not completed, and the phase of `getSession`. */
  datatype AuthSnapshot = AuthSnapshot(
    user: Option<User>,
    session: Option<Session>,
    clientProfile: Option<ClientProfile>,
    isLoading: bool,
    userRole: Option<string>,
    stored: Option<StoredEntry>,
    pendingRoleFetches: seq<string>,
    boot: BootPhase)

  ghost const Initial: AuthSnapshot := AuthSnapshot(None, None, None, true, None, None, [], NotStarted)

  datatype StoredCheck = StoredCheck(found: bool, state: AuthSnapshot)

  /** `checkClientProfileSession`: a parsable entry is adopted with role
      'user'; one that cannot be parsed or read is removed; an empty string
      is falsy and changes nothing. */
  function CheckStored(s: AuthSnapshot): StoredCheck {
    match s.stored
    case None => StoredCheck(false, s)
    case Some(EmptyString) => StoredCheck(false, s)
    case Some(Malformed) => StoredCheck(false, s.(stored := None))
    case Some(Wellformed(p)) => StoredCheck(true, s.(clientProfile := Some(p), userRole := Some(DefaultRole)))
  }

  /** The `onAuthStateChange` callback. */
  function AuthEventStep(s: AuthSnapshot, event: AuthEvent, session: Option<Session>): AuthSnapshot {
    if event == SignedOut || session.None? then
      s.(session := None, user := None, userRole := None, isLoading := false)
    else
      var u := session.value.user;
      s.(clientProfile := None, stored := None, session := session, user := u,
         userRole := if u.Some? then s.userRole else None,
         pendingRoleFetches := if u.Some? then s.pendingRoleFetches + [u.value.id] else s.pendingRoleFetches,
         isLoading := false)
  }

  /** The scheduled role resolution for `pendingRoleFetches[k]` completes. */
  function DeliverRole(s: AuthSnapshot, k: nat, first: RoleRead, retry: RoleRead): AuthSnapshot
    requires k < |s.pendingRoleFetches|
  {
    s.(userRole := Some(FetchUserRole(first, retry).role),
       pendingRoleFetches := s.pendingRoleFetches[..k] + s.pendingRoleFetches[k + 1..])
  }

  /** Clears the platform-session cells. */
  function SignedOutCells(s: AuthSnapshot): AuthSnapshot {
    s.(session := None, user := None, userRole := None)
  }

  /** `getSession` run without interruption: `check` is the session read;
      `first` and `retry` are the role reads for the session's user. */
  function GetSessionStep(s: AuthSnapshot, check: SessionCheck, first: RoleRead, retry: RoleRead): AuthSnapshot {
    var c := CheckStored(s);
    var t := c.state;
    if c.found then t.(isLoading := false)
    else
      match check
      case SessionRejected(reason) =>
        (if IsNetworkMessage(reason) then SignedOutCells(t) else t).(isLoading := false)
      case SessionAnswered(session, error) =>
        if error.Some? then
          (if IsNetworkMessage(error.value.message) then SignedOutCells(t) else t).(isLoading := false)
        else if session.Some? && session.value.user.Some? then
          t.(session := session, user := session.value.user,
             userRole := Some(FetchUserRole(first, retry).role), isLoading := false)
        else t.(isLoading := false)
  }

  /** `getSession` up to its first `await`: a stored client profile ends the
      call at once; otherwise it waits for the session read. */
  function BootStart(s: AuthSnapshot): (t: AuthSnapshot)
    requires s.boot == NotStarted
    ensures t.boot == Finished <==> CheckStored(s).found
    ensures t.boot == Finished ==> !t.isLoading
    ensures t.boot != Finished ==> t.boot == AwaitingSession && t == CheckStored(s).state.(boot := AwaitingSession)
  {
    var c := CheckStored(s);
    if c.found then c.state.(isLoading := false, boot := Finished)
    else c.state.(boot := AwaitingSession)
  }

  /** The session read settles: an error, a rejection or a session without a
      user ends the call (the `finally` clears isLoading); a user's session is
      adopted and the call waits for that user's role. */
  function BootSessionAnswer(s: AuthSnapshot, check: SessionCheck): (t: AuthSnapshot)
    requires s.boot == AwaitingSession
    ensures t.boot == AwaitingRole <==> check.SessionAnswered? && check.error.None? && check.session.Some? && check.session.value.user.Some?
    ensures t.boot == AwaitingRole ==> t == s.(session := check.session, user := check.session.value.user, boot := AwaitingRole)
    ensures t.boot != AwaitingRole ==>
      t.boot == Finished && !t.isLoading
      && t.clientProfile == s.clientProfile && t.stored == s.stored && t.pendingRoleFetches == s.pendingRoleFetches
  {
    match check
    case SessionRejected(reason) =>
      (if IsNetworkMessage(reason) then SignedOutCells(s) else s).(isLoading := false, boot := Finished)
    case SessionAnswered(session, error) =>
      if error.Some? then
        (if IsNetworkMessage(error.value.message) then SignedOutCells(s) else s).(isLoading := false, boot := Finished)
      else if session.Some? && session.value.user.Some? then
        s.(session := session, user := session.value.user, boot := AwaitingRole)
      else s.(isLoading := false, boot := Finished)
  }

  /** The role of the session's user arrives and the call finishes. */
  function BootRoleAnswer(s: AuthSnapshot, first: RoleRead, retry: RoleRead): (t: AuthSnapshot)
    requires s.boot == AwaitingRole
    ensures t.boot == Finished && !t.isLoading && t.userRole == Some(FetchUserRole(first, retry).role)
    ensures t.user == s.user && t.session == s.session && t.clientProfile == s.clientProfile
    ensures t.stored == s.stored && t.pendingRoleFetches == s.pendingRoleFetches
  {
    s.(userRole := Some(FetchUserRole(first, retry).role), isLoading := false, boot := Finished)
  }

  /** The three steps, with nothing in between. */
  function RunGetSession(s: AuthSnapshot, check: SessionCheck, first: RoleRead, retry: RoleRead): AuthSnapshot
    requires s.boot == NotStarted
  {
    var a := BootStart(s);
    if a.boot != AwaitingSession then a
    else
      var b := BootSessionAnswer(a, check);
      if b.boot == AwaitingRole then BootRoleAnswer(b, first, retry) else b
  }

  /** The hook's state. */
  class AuthStateCells {
    var user: Option<User>
    var session: Option<Session>
    var clientProfile: Option<ClientProfile>
    var isLoading: bool
    var userRole: Option<string>
    var stored: Option<StoredEntry>
    var pendingRoleFetches: seq<string>
    var boot: BootPhase

    function Snapshot(): AuthSnapshot
      reads this
    {
      AuthSnapshot(user, session, clientProfile, isLoading, userRole, stored, pendingRoleFetches, boot)
    }

    /** The cells' initial values, over whatever storage already holds. */
    constructor(stored: Option<StoredEntry>)
      ensures Snapshot() == Initial.(stored := stored)
    {
      user := None;
      session := None;
      clientProfile := None;
      isLoading := true;
      userRole := None;
      this.stored := stored;
      pendingRoleFetches := [];
      boot := NotStarted;
    }

    method CheckClientProfileSession() returns (found: bool)
      modifies this
      ensures found == CheckStored(old(Snapshot())).found
      ensures Snapshot() == CheckStored(old(Snapshot())).state
    {
      if stored.Some? && !stored.value.EmptyString? {
        if stored.value.Malformed? {
          stored := None;
          return false;
        }
        clientProfile := Some(stored.value.profile);
        userRole := Some(DefaultRole);
        return true;
      }
      return false;
    }

    method OnAuthStateChange(event: AuthEvent, newSession: Option<Session>)
      modifies this
      ensures Snapshot() == AuthEventStep(old(Snapshot()), event, newSession)
    {
      if event == SignedOut || newSession.None? {
        session := None;
        user := None;
        userRole := None;
        isLoading := false;
        return;
      }
      clientProfile := None;
      stored := None;
      session := newSession;
      user := newSession.value.user;
      if newSession.value.user.Some? {
        pendingRoleFetches := pendingRoleFetches + [newSession.value.user.value.id];
      } else {
        userRole := None;
      }
      isLoading := false;
    }

    /** The timer scheduled for `pendingRoleFetches[k]` fires and its role
        resolution completes with the given reads. */
    method DeliverScheduledRole(k: nat, first: RoleRead, retry: RoleRead)
      requires k < |pendingRoleFetches|
      modifies this
      ensures Snapshot() == DeliverRole(old(Snapshot()), k, first, retry)
    {
      var resolution := FetchUserRole(first, retry);
      userRole := Some(resolution.role);
      pendingRoleFetches := pendingRoleFetches[..k] + pendingRoleFetches[k + 1..];
    }

    /** `getSession` up to the session read. */
    method StartGetSession()
      requires boot == NotStarted
      modifies this
      ensures Snapshot() == BootStart(old(Snapshot()))
    {
      var hasClientProfile := CheckClientProfileSession();
      if hasClientProfile {
        isLoading := false;
        boot := Finished;
      } else {
        boot := AwaitingSession;
      }
    }

    /** The session read settles. */
    method ReceiveSession(check: SessionCheck)
      requires boot == AwaitingSession
      modifies this
      ensures Snapshot() == BootSessionAnswer(old(Snapshot()), check)
    {
      match check {
        case SessionRejected(reason) =>
          if IsNetworkMessage(reason) {
            session := None;
            user := None;
            userRole := None;
          }
        case SessionAnswered(found, error) =>
          if error.Some? {
            if IsNetworkMessage(error.value.message) {
              session := None;
              user := None;
              userRole := None;
            }
          } else if found.Some? && found.value.user.Some? {
            session := found;
            user := found.value.user;
            boot := AwaitingRole;
            return;
          }
      }
      isLoading := false;
      boot := Finished;
    }

    /** The role read for the session's user settles. */
    method ReceiveSessionRole(first: RoleRead, retry: RoleRead)
      requires boot == AwaitingRole
      modifies this
      ensures Snapshot() == BootRoleAnswer(old(Snapshot()), first, retry)
    {
      var resolution := FetchUserRole(first, retry);
      userRole := Some(resolution.role);
      isLoading := false;
      boot := Finished;
    }

    /** `getSession` when no auth event runs while it waits. */
    method GetSession(check: SessionCheck, first: RoleRead, retry: RoleRead)
      requires boot == NotStarted
      modifies this
      ensures Snapshot() == GetSessionStep(old(Snapshot()), check, first, retry).(boot := Finished)
    {
      ghost var s0 := Snapshot();
      StartGetSession();
      if boot == AwaitingSession {
        ReceiveSession(check);
        if boot == AwaitingRole {
          ReceiveSessionRole(first, retry);
        }
      }
      GetSessionUninterrupted(s0, check, first, retry);
    }
  }

  /** A parsable stored entry is adopted with role 'user' and the platform
      session is not consulted: the result does not depend on the session
      read or the role reads. */
  lemma StoredProfileAdopted(s: AuthSnapshot, p: ClientProfile, check: SessionCheck, first: RoleRead, retry: RoleRead,
                             check2: SessionCheck, first2: RoleRead, retry2: RoleRead)
    requires s.stored == Some(Wellformed(p))
    ensures var t := GetSessionStep(s, check, first, retry);
      && t.clientProfile == Some(p) && t.userRole == Some(DefaultRole) && !t.isLoading
      && t.user == s.user && t.session == s.session && t.stored == s.stored
      && t == GetSessionStep(s, check2, first2, retry2)
  {
  }

  /** An entry that cannot be parsed or read is removed and counts as no
      client session; an empty string is left in place. */
  lemma UnreadableEntryDiscarded(s: AuthSnapshot)
    ensures s.stored == Some(Malformed) ==> CheckStored(s) == StoredCheck(false, s.(stored := None))
    ensures s.stored == Some(EmptyString) ==> CheckStored(s) == StoredCheck(false, s)
  {
  }

  /** Sign-out, or an event without a session, clears the platform cells
      only; the client profile and the storage key stay. */
  lemma SignOutKeepsClientProfile(s: AuthSnapshot, event: AuthEvent, session: Option<Session>)
    requires event == SignedOut || session.None?
    ensures var t := AuthEventStep(s, event, session);
      && t.session.None? && t.user.None? && t.userRole.None? && !t.isLoading
      && t.clientProfile == s.clientProfile && t.stored == s.stored
      && t.pendingRoleFetches == s.pendingRoleFetches
  {
  }

  /** Any other event with a session drops the client profile and its
      storage key, adopts the session, and schedules the user's role
      resolution. */
  lemma SessionEventReplacesClientProfile(s: AuthSnapshot, event: AuthEvent, session: Session)
    requires event != SignedOut
    ensures var t := AuthEventStep(s, event, Some(session));
      && t.clientProfile.None? && t.stored.None?
      && t.session == Some(session) && t.user == session.user && !t.isLoading
      && (session.user.Some? ==> t.pendingRoleFetches == s.pendingRoleFetches + [session.user.value.id]
                                 && t.userRole == s.userRole)
      && (session.user.None? ==> t.userRole.None? && t.pendingRoleFetches == s.pendingRoleFetches)
  {
  }

  /** A network-class session error forces the platform cells to null; any
      other session error leaves every cell but isLoading as the stored-entry
      check left it. */
  lemma SessionErrorHandling(s: AuthSnapshot, session: Option<Session>, e: DbError, first: RoleRead, retry: RoleRead)
    requires s.stored.None?
    ensures IsNetworkMessage(e.message) ==>
      GetSessionStep(s, SessionAnswered(session, Some(e)), first, retry) == SignedOutCells(s).(isLoading := false)
    ensures !IsNetworkMessage(e.message) ==>
      GetSessionStep(s, SessionAnswered(session, Some(e)), first, retry) == s.(isLoading := false)
  {
  }

  /** isLoading is false once `getSession` has finished, on every path,
      and once an auth event has been handled. */
  lemma LoadingEnds(s: AuthSnapshot, check: SessionCheck, first: RoleRead, retry: RoleRead,
                    event: AuthEvent, session: Option<Session>)
    ensures !GetSessionStep(s, check, first, retry).isLoading
    ensures !AuthEventStep(s, event, session).isLoading
  {
  }

  /** A set role is never the empty string. */
  predicate RoleNonEmpty(s: AuthSnapshot) {
    s.userRole.Some? ==> s.userRole.value != ""
  }

  /** Every transition keeps roles non-empty. */
  lemma RoleNonEmptyPreserved(s: AuthSnapshot, check: SessionCheck, first: RoleRead, retry: RoleRead,
                              event: AuthEvent, session: Option<Session>, k: nat)
    requires RoleNonEmpty(s)
    ensures RoleNonEmpty(CheckStored(s).state)
    ensures RoleNonEmpty(GetSessionStep(s, check, first, retry))
    ensures RoleNonEmpty(AuthEventStep(s, event, session))
    ensures k < |s.pendingRoleFetches| ==> RoleNonEmpty(DeliverRole(s, k, first, retry))
  {
  }

  /** After a signed-in event the published context is authenticated as a
      platform user, not as a client profile; after adopting a stored entry
      it is a client-profile context. */
  lemma ContextAfterTransitions(s: AuthSnapshot, event: AuthEvent, session: Session, p: ClientProfile,
                                check: SessionCheck, first: RoleRead, retry: RoleRead)
    requires event != SignedOut && session.user.Some?
    ensures var t := AuthEventStep(s, event, Some(session));
      var c := ProvideContext(t.user, t.session, t.clientProfile, t.isLoading, t.userRole);
      c.isAuthenticated && !c.isClientProfile && !c.isLoading
    ensures var t := GetSessionStep(s.(stored := Some(Wellformed(p))), check, first, retry);
      var c := ProvideContext(t.user, t.session, t.clientProfile, t.isLoading, t.userRole);
      c.isAuthenticated && c.isClientProfile && c.userRole == Some(DefaultRole)
  {
  }

  /** Scheduled role resolutions survive a sign-out, so one completing
      afterwards sets a role while no user is signed in. */
  lemma StaleRoleAfterSignOut(u: User, first: RoleRead, retry: RoleRead)
    ensures var s1 := AuthEventStep(Initial, SignedIn, Some(Session(Some(u))));
      var s2 := AuthEventStep(s1, SignedOut, None);
      var s3 := DeliverRole(s2, 0, first, retry);
      s3.user.None? && s3.userRole.Some?
  {
    var s1 := AuthEventStep(Initial, SignedIn, Some(Session(Some(u))));
    assert s1.pendingRoleFetches == [u.id];
  }

  /** Run without interruption, the three steps of `getSession` are the
      single step `GetSessionStep`, so every lemma about it holds of them. */
  lemma GetSessionUninterrupted(s: AuthSnapshot, check: SessionCheck, first: RoleRead, retry: RoleRead)
    requires s.boot == NotStarted
    ensures RunGetSession(s, check, first, retry) == GetSessionStep(s, check, first, retry).(boot := Finished)
  {
  }

  /** A sign-out while `getSession` waits for the session read is undone:
      the session read, made before the sign-out, signs the user back in. */
  lemma SignOutDuringSessionReadUndone(u: User)
    ensures var s0 := BootStart(Initial);
      var s1 := AuthEventStep(s0, SignedOut, None);
      var s2 := BootSessionAnswer(s1, SessionAnswered(Some(Session(Some(u))), None));
      s0.boot == AwaitingSession && s1.user.None?
      && s2.user == Some(u) && s2.session == Some(Session(Some(u))) && s2.boot == AwaitingRole
  {
    assert CheckStored(Initial) == StoredCheck(false, Initial);
  }

  /** A sign-out while `getSession` waits for the role leaves no user, but the
      role read still completes and sets a role. */
  lemma SignOutDuringRoleReadKeepsRole(u: User, first: RoleRead, retry: RoleRead)
    ensures var s0 := BootStart(Initial);
      var s1 := BootSessionAnswer(s0, SessionAnswered(Some(Session(Some(u))), None));
      var s2 := AuthEventStep(s1, SignedOut, None);
      var s3 := BootRoleAnswer(s2, first, retry);
      s2.user.None? && s3.user.None? && s3.userRole.Some? && !s3.isLoading
  {
    assert CheckStored(Initial) == StoredCheck(false, Initial);
  }

  /** Each step of `getSession` keeps set roles non-empty, and a finished
      call has cleared isLoading. */
  lemma BootStepsKeepInvariants(s: AuthSnapshot, check: SessionCheck, first: RoleRead, retry: RoleRead)
    requires RoleNonEmpty(s)
    ensures s.boot == NotStarted ==> RoleNonEmpty(BootStart(s))
    ensures s.boot == AwaitingSession ==> RoleNonEmpty(BootSessionAnswer(s, check))
    ensures s.boot == AwaitingRole ==> RoleNonEmpty(BootRoleAnswer(s, first, retry))
    ensures s.boot == NotStarted ==> !RunGetSession(s, check, first, retry).isLoading
  {
    if s.boot == NotStarted {
      GetSessionUninterrupted(s, check, first, retry);
      LoadingEnds(s, check, first, retry, SignedOut, None);
    }
  }
}
