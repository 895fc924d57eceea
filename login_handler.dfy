/** The login form's submit handler (src/components/auth/login/useLoginHandler.ts):
    a client-profile login is tried first; otherwise the per-email attempt
    record in the `profiles` table gates the standard login, counts failures
    and locks the account for 15 minutes after the fifth one.

    The remote calls are inputs: `clientRows` is what the
    `authenticate_client_profile` call returned (an error counts as no rows),
    `profileReadFails` says whether the read of the attempt record failed,
    and `loginError` is the outcome of the standard credential check: `None`
    when `login` resolves, the thrown error's message when it rejects.
    Wall-clock time is the integer `now`, in milliseconds. */
module LoginHandler {
  import opened Common
  import opened AuthProvider

  const LockThreshold := 5
  const LockDurationMs := 15 * 60 * 1000

  /** A `profiles` row's `failed_login_attempts` and `locked_until` columns;
      either may be null. */
  datatype AttemptRecord = AttemptRecord(failedAttempts: Option<nat>, lockedUntil: Option<int>)

  /** A row returned by the client-profile login call. */
  datatype ClientProfileRow = ClientProfileRow(id: string, clientName: string, email: Option<string>, phone: Option<string>)

  datatype Severity = Low | Medium | High
  datatype EventType =
    | SuccessfulClientLogin
    | LoginAttemptOnLockedAccount
    | SuccessfulLogin
    | AccountLocked
    | FailedLoginAttempt
    | FailedLoginUnknownEmail

  /** A value in an event's details object; an instant is in milliseconds
      (the source sends it as an ISO string). */
  datatype Detail = Text(text: string) | Number(number: int) | Instant(ms: int)

  /** The security event a submission logs, with its details object. */
  datatype SecurityEvent = SecurityEvent(eventType: EventType, severity: Severity, details: map<string, Detail>)

  /** The event-type name sent to the log. */
  function EventName(t: EventType): string {
    match t
    case SuccessfulClientLogin => "successful_client_login"
    case LoginAttemptOnLockedAccount => "login_attempt_on_locked_account"
    case SuccessfulLogin => "successful_login"
    case AccountLocked => "account_locked"
    case FailedLoginAttempt => "failed_login_attempt"
    case FailedLoginUnknownEmail => "failed_login_unknown_email"
  }

  datatype LoginMessage =
    | NoMessage
    | LockedAccount
    | JustLocked
    | AttemptsRemaining(remaining: nat)
    | InvalidEmailOrPassword

  /** Everything one submission does. */
  datatype Outcome = Outcome(
    profiles: map<string, AttemptRecord>,  // the `profiles` table afterwards
    stored: Option<ClientProfile>,         // what is written under `clientProfile`, if anything
    clientLogin: Option<string>,           // the client profile whose last_login is stamped
    message: LoginMessage,
    locks: bool,                           // whether accountLocked is set
    events: seq<SecurityEvent>,
    profileRead: bool,
    credentialChecked: bool)

  function MessageText(m: LoginMessage): (t: string)
    ensures t == "" <==> m == NoMessage
  {
    match m
    case NoMessage => ""
    case LockedAccount => "Account is temporarily locked due to multiple failed login attempts. Please try again later."
    case JustLocked => "Account locked due to multiple failed login attempts. Please try again in 15 minutes."
    case AttemptsRemaining(n) => "Invalid credentials. " + NatToString(n) + " attempts remaining before account lock."
    case InvalidEmailOrPassword => "Invalid email or password"
  }

  /** `failed_login_attempts || 0`. */
  function FailedCount(r: AttemptRecord): nat {
    if r.failedAttempts.Some? then r.failedAttempts.value else 0
  }

  /** `locked_until` is set and strictly later than now. */
  predicate IsLocked(r: AttemptRecord, now: int) {
    r.lockedUntil.Some? && r.lockedUntil.value > now
  }

  /** The update sent after a failure: the new count, and `locked_until`
      only when a lock time exists. An undefined value is dropped from the
      JSON body, so the column is otherwise left as it was. */
  function WriteFailure(r: AttemptRecord, count: nat, lockUntil: Option<int>): AttemptRecord {
    AttemptRecord(Some(count), if lockUntil.Some? then lockUntil else r.lockedUntil)
  }

  /** The entry stored for a client-profile login: the row's email, or the
      typed identifier when the row's email is null or empty. */
  function StoredProfile(row: ClientProfileRow, email: string): ClientProfile {
    ClientProfile(row.id, row.clientName,
                  if row.email.Some? && row.email.value != "" then row.email.value else email,
                  row.phone)
  }

  /** The `successful_client_login` event: the client profile's id and name. */
  function ClientLoginEvent(row: ClientProfileRow): SecurityEvent {
    SecurityEvent(SuccessfulClientLogin, Low, map["client_id" := Text(row.id), "client_name" := Text(row.clientName)])
  }

  /** The `login_attempt_on_locked_account` event: the email and the stored lock's end. */
  function LockedAccountEvent(email: string, until: int): SecurityEvent {
    SecurityEvent(LoginAttemptOnLockedAccount, High, map["email" := Text(email), "locked_until" := Instant(until)])
  }

  /** The `successful_login` event: the email. */
  function SuccessEvent(email: string): SecurityEvent {
    SecurityEvent(SuccessfulLogin, Low, map["email" := Text(email)])
  }

  /** The `failed_login_unknown_email` event: the email and the error. */
  function UnknownEmailEvent(email: string, message: string): SecurityEvent {
    SecurityEvent(FailedLoginUnknownEmail, Medium, map["email" := Text(email), "error_message" := Text(message)])
  }

  /** The `account_locked` event: the email, the new count and the lock's end. */
  function LockEvent(email: string, failed: nat, until: int): SecurityEvent {
    SecurityEvent(AccountLocked, High,
                  map["email" := Text(email), "failed_attempts" := Number(failed), "locked_until" := Instant(until)])
  }

  /** The `failed_login_attempt` event: the email, the new count and the error. */
  function FailureEvent(email: string, failed: nat, message: string): SecurityEvent {
    SecurityEvent(FailedLoginAttempt, Medium,
                  map["email" := Text(email), "failed_attempts" := Number(failed), "error_message" := Text(message)])
  }

  /** The outcome of one submission. */
  function Attempt(profiles: map<string, AttemptRecord>, email: string, clientRows: seq<ClientProfileRow>,
                   profileReadFails: bool, loginError: Option<string>, now: int): Outcome
  {
    if |clientRows| > 0 then
      Outcome(profiles, Some(StoredProfile(clientRows[0], email)), Some(clientRows[0].id), NoMessage, false,
              [ClientLoginEvent(clientRows[0])], false, false)
    else
      var profile := if profileReadFails || email !in profiles then None else Some(profiles[email]);
      if profile.Some? && IsLocked(profile.value, now) then
        Outcome(profiles, None, None, LockedAccount, true,
                [LockedAccountEvent(email, profile.value.lockedUntil.value)], true, false)
      else
        CheckedAttempt(profiles, email, profile, loginError, now)
  }

  /** The outcome once the standard login has been tried; `profile` is the
      attempt record as read, if the read found one. */
  function CheckedAttempt(profiles: map<string, AttemptRecord>, email: string, profile: Option<AttemptRecord>,
                          loginError: Option<string>, now: int): Outcome
    requires profile.Some? ==> email in profiles
  {
    if loginError.None? then
      Outcome(if email in profiles then profiles[email := AttemptRecord(Some(0), None)] else profiles,
              None, None, NoMessage, false, [SuccessEvent(email)], true, true)
    else if profile.Some? then
      var newFailed := FailedCount(profile.value) + 1;
      if newFailed >= LockThreshold then
        Outcome(profiles[email := WriteFailure(profiles[email], newFailed, Some(now + LockDurationMs))],
                None, None, JustLocked, true, [LockEvent(email, newFailed, now + LockDurationMs)], true, true)
      else
        Outcome(profiles[email := WriteFailure(profiles[email], newFailed, None)],
                None, None, AttemptsRemaining(LockThreshold - newFailed), false,
                [FailureEvent(email, newFailed, loginError.value)], true, true)
    else
      Outcome(profiles, None, None, InvalidEmailOrPassword, false,
              [UnknownEmailEvent(email, loginError.value)], true, true)
  }

  /** The hook's three state cells, and the remote state it reads and writes. */
  class LoginForm {
    var isLoading: bool
    var errorMessage: LoginMessage  // the `error` cell, as the message it renders
    var accountLocked: bool
    var profiles: map<string, AttemptRecord>
    var clientLastLogin: map<string, int>
    var storedClientProfile: Option<StoredEntry>
    var events: seq<SecurityEvent>
    var profileReads: nat
    var credentialChecks: nat

    /** The text shown under the form. */
    function Error(): string
      reads this
    {
      MessageText(errorMessage)
    }

    constructor(profiles: map<string, AttemptRecord>, storedClientProfile: Option<StoredEntry>)
      ensures !isLoading && Error() == "" && !accountLocked
      ensures this.profiles == profiles && this.storedClientProfile == storedClientProfile
      ensures clientLastLogin == map[] && events == [] && profileReads == 0 && credentialChecks == 0
    {
      isLoading := false;
      errorMessage := NoMessage;
      accountLocked := false;
      this.profiles := profiles;
      clientLastLogin := map[];
      this.storedClientProfile := storedClientProfile;
      events := [];
      profileReads := 0;
      credentialChecks := 0;
    }

    /** `handleSubmit`: the new state is the one `Attempt` describes. */
    method HandleSubmit(email: string, clientRows: seq<ClientProfileRow>, profileReadFails: bool,
                        loginError: Option<string>, now: int)
      modifies this
      ensures var o := Attempt(old(profiles), email, clientRows, profileReadFails, loginError, now);
        && profiles == o.profiles
        && errorMessage == o.message
        && accountLocked == (old(accountLocked) || o.locks)
        && !isLoading
        && events == old(events) + o.events
        && profileReads == old(profileReads) + (if o.profileRead then 1 else 0)
        && credentialChecks == old(credentialChecks) + (if o.credentialChecked then 1 else 0)
        && storedClientProfile == (if o.stored.Some? then Some(Wellformed(o.stored.value)) else old(storedClientProfile))
        && clientLastLogin == (if o.clientLogin.Some? then old(clientLastLogin)[o.clientLogin.value := now] else old(clientLastLogin))
    {
      errorMessage := NoMessage;
      isLoading := true;

      if |clientRows| > 0 {
        var row := clientRows[0];
        clientLastLogin := clientLastLogin[row.id := now];
        events := events + [ClientLoginEvent(row)];
        storedClientProfile := Some(Wellformed(StoredProfile(row, email)));
        isLoading := false;
        return;
      }
      assert clientRows == [];
      StandardLogin(email, profileReadFails, loginError, now);
    }

    /** The part of `handleSubmit` after the client-profile call found no
        match: the attempt record's gate, the standard login and its
        bookkeeping. The submission has already cleared the error. */
    method StandardLogin(email: string, profileReadFails: bool, loginError: Option<string>, now: int)
      requires errorMessage == NoMessage
      modifies this
      ensures var o := Attempt(old(profiles), email, [], profileReadFails, loginError, now);
        && profiles == o.profiles
        && errorMessage == o.message
        && accountLocked == (old(accountLocked) || o.locks)
        && !isLoading
        && events == old(events) + o.events
        && profileReads == old(profileReads) + 1
        && credentialChecks == old(credentialChecks) + (if o.credentialChecked then 1 else 0)
        && storedClientProfile == old(storedClientProfile)
        && clientLastLogin == old(clientLastLogin)
    {
      ghost var o := Attempt(profiles, email, [], profileReadFails, loginError, now);
      profileReads := profileReads + 1;
      var profile: Option<AttemptRecord> := None;
      if !profileReadFails && email in profiles {
        profile := Some(profiles[email]);
      }

      if profile.Some? && IsLocked(profile.value, now) {
        accountLocked := true;
        errorMessage := LockedAccount;
        var event := LockedAccountEvent(email, profile.value.lockedUntil.value);
        events := events + [event];
        isLoading := false;
        assert o == Outcome(profiles, None, None, LockedAccount, true, [event], true, false);
        return;
      }

      CheckCredentials(email, profile, loginError, now);
    }

    /** After the gate: the standard login, and the record's update and the
        event that its answer calls for. */
    method CheckCredentials(email: string, profile: Option<AttemptRecord>, loginError: Option<string>, now: int)
      requires profile.Some? ==> email in profiles
      requires errorMessage == NoMessage
      modifies this
      ensures var o := CheckedAttempt(old(profiles), email, profile, loginError, now);
        && profiles == o.profiles
        && errorMessage == o.message
        && accountLocked == (old(accountLocked) || o.locks)
        && !isLoading
        && events == old(events) + o.events
        && profileReads == old(profileReads)
        && credentialChecks == old(credentialChecks) + 1
        && storedClientProfile == old(storedClientProfile)
        && clientLastLogin == old(clientLastLogin)
    {
      ghost var o := CheckedAttempt(profiles, email, profile, loginError, now);
      credentialChecks := credentialChecks + 1;
      if loginError.None? {
        if email in profiles {
          profiles := profiles[email := AttemptRecord(Some(0), None)];
        }
        var event := SuccessEvent(email);
        events := events + [event];
        assert o == Outcome(profiles, None, None, NoMessage, false, [event], true, true);
      } else if profile.Some? {
        var newFailed := FailedCount(profile.value) + 1;
        var shouldLock := newFailed >= LockThreshold;
        var lockUntil: Option<int> := if shouldLock then Some(now + LockDurationMs) else None;
        profiles := profiles[email := WriteFailure(profiles[email], newFailed, lockUntil)];
        if shouldLock {
          accountLocked := true;
          errorMessage := JustLocked;
          events := events + [LockEvent(email, newFailed, now + LockDurationMs)];
          assert o == Outcome(profiles, None, None, JustLocked, true, [LockEvent(email, newFailed, now + LockDurationMs)], true, true);
        } else {
          errorMessage := AttemptsRemaining(LockThreshold - newFailed);
          events := events + [FailureEvent(email, newFailed, loginError.value)];
          assert o == Outcome(profiles, None, None, AttemptsRemaining(LockThreshold - newFailed), false,
                              [FailureEvent(email, newFailed, loginError.value)], true, true);
        }
      } else {
        errorMessage := InvalidEmailOrPassword;
        var event := UnknownEmailEvent(email, loginError.value);
        events := events + [event];
        assert o == Outcome(profiles, None, None, InvalidEmailOrPassword, false, [event], true, true);
      }
      isLoading := false;
    }
  }

  /** A client-profile match stores the first row and touches neither the
      attempt records nor the standard login. */
  lemma ClientProfileShortCircuit(profiles: map<string, AttemptRecord>, email: string, clientRows: seq<ClientProfileRow>,
                                  profileReadFails: bool, loginError: Option<string>, now: int)
    requires |clientRows| > 0
    ensures var o := Attempt(profiles, email, clientRows, profileReadFails, loginError, now);
      && o.profiles == profiles && !o.profileRead && !o.credentialChecked && !o.locks
      && o.message == NoMessage && o.clientLogin == Some(clientRows[0].id)
      && o.events == [SecurityEvent(SuccessfulClientLogin, Low,
                                    map["client_id" := Text(clientRows[0].id), "client_name" := Text(clientRows[0].clientName)])]
      && o.stored == Some(ClientProfile(clientRows[0].id, clientRows[0].clientName,
                                        if clientRows[0].email.Some? && clientRows[0].email.value != ""
                                        then clientRows[0].email.value else email,
                                        clientRows[0].phone))
  {
  }

  /** A record locked strictly past now refuses the attempt whatever the
      credentials, without checking them and without writing the record. */
  lemma LockedAttemptRefused(profiles: map<string, AttemptRecord>, email: string, loginError: Option<string>, now: int)
    requires email in profiles && IsLocked(profiles[email], now)
    ensures var o := Attempt(profiles, email, [], false, loginError, now);
      && o.locks && o.message == LockedAccount && !o.credentialChecked
      && o.profiles == profiles && o.stored.None?
      && o.events == [SecurityEvent(LoginAttemptOnLockedAccount, High,
                                    map["email" := Text(email), "locked_until" := Instant(profiles[email].lockedUntil.value)])]
  {
  }

  /** A lock whose time equals now has expired: the credentials are checked. */
  lemma LockExpiresAtItsTime(profiles: map<string, AttemptRecord>, email: string, loginError: Option<string>, now: int)
    requires email in profiles && profiles[email].lockedUntil == Some(now)
    ensures Attempt(profiles, email, [], false, loginError, now).credentialChecked
    ensures Attempt(profiles, email, [], false, loginError, now).message != LockedAccount
  {
  }

  /** A successful standard login clears the record, whatever it held. */
  lemma SuccessResets(profiles: map<string, AttemptRecord>, email: string, profileReadFails: bool, now: int)
    requires email in profiles
    requires profileReadFails || !IsLocked(profiles[email], now)
    ensures var o := Attempt(profiles, email, [], profileReadFails, None, now);
      && o.profiles == profiles[email := AttemptRecord(Some(0), None)]
      && o.message == NoMessage && !o.locks && o.credentialChecked
      && o.events == [SecurityEvent(SuccessfulLogin, Low, map["email" := Text(email)])]
  {
  }

  /** A failure for a known, unlocked email counts one more failure; it
      locks for exactly 15 minutes from now when the count reaches 5, and
      otherwise reports the remaining attempts and leaves a lock time that
      is no longer in force. No other record changes. */
  lemma FailureCounts(profiles: map<string, AttemptRecord>, email: string, m: string, now: int)
    requires email in profiles && !IsLocked(profiles[email], now)
    ensures var o := Attempt(profiles, email, [], false, Some(m), now);
      var n := FailedCount(profiles[email]) + 1;
      && email in o.profiles
      && o.profiles == profiles[email := o.profiles[email]]
      && o.profiles[email].failedAttempts == Some(n)
      && (n >= LockThreshold ==>
            o.profiles[email].lockedUntil == Some(now + 900000) && o.locks && o.message == JustLocked
            && o.events == [LockEvent(email, n, now + 900000)])
      && (n < LockThreshold ==>
            && !o.locks && o.message == AttemptsRemaining(5 - n)
            && o.events == [FailureEvent(email, n, m)]
            && o.profiles[email].lockedUntil == profiles[email].lockedUntil
            && forall later :: later >= now ==> !IsLocked(o.profiles[email], later))
  {
  }

  /** The remaining-attempts message always reports between one and four. */
  lemma RemainingBetweenOneAndFour(profiles: map<string, AttemptRecord>, email: string, clientRows: seq<ClientProfileRow>,
                                   profileReadFails: bool, loginError: Option<string>, now: int)
    ensures var o := Attempt(profiles, email, clientRows, profileReadFails, loginError, now);
      o.message.AttemptsRemaining? ==> 1 <= o.message.remaining <= 4
  {
  }

  /** A failure with no attempt record (no row, or a failed read) reports
      'Invalid email or password' and writes nothing. */
  lemma UnknownEmailFailure(profiles: map<string, AttemptRecord>, email: string, profileReadFails: bool, m: string, now: int)
    requires profileReadFails || email !in profiles
    ensures var o := Attempt(profiles, email, [], profileReadFails, Some(m), now);
      && o.profiles == profiles && !o.locks
      && o.message == InvalidEmailOrPassword
      && MessageText(o.message) == "Invalid email or password"
      && o.events == [SecurityEvent(FailedLoginUnknownEmail, Medium,
                                    map["email" := Text(email), "error_message" := Text(m)])]
  {
  }

  /** Only a successful standard login lowers a failure count: every other
      submission keeps every email's count or raises it, and keeps the set
      of emails. */
  lemma OnlySuccessResets(profiles: map<string, AttemptRecord>, email: string, clientRows: seq<ClientProfileRow>,
                          profileReadFails: bool, loginError: Option<string>, now: int)
    requires loginError.Some? || |clientRows| > 0
    ensures var o := Attempt(profiles, email, clientRows, profileReadFails, loginError, now);
      && o.profiles.Keys == profiles.Keys
      && forall e :: e in profiles ==> FailedCount(o.profiles[e]) >= FailedCount(profiles[e])
  {
  }

  /** Once the count has reached 5, the first failure after the lock has
      expired locks again at once. */
  lemma RelockAfterFive(profiles: map<string, AttemptRecord>, email: string, m: string, now: int)
    requires email in profiles && FailedCount(profiles[email]) >= LockThreshold
    requires !IsLocked(profiles[email], now)
    ensures var o := Attempt(profiles, email, [], false, Some(m), now);
      o.locks && o.message == JustLocked && o.profiles[email].lockedUntil == Some(now + LockDurationMs)
  {
  }

  /** The outcomes of consecutive failed standard logins for one email. */
  function Failures(profiles: map<string, AttemptRecord>, email: string, m: string, times: seq<int>): (r: seq<Outcome>)
    ensures |r| == |times|
    decreases |times|
  {
    if |times| == 0 then []
    else
      var o := Attempt(profiles, email, [], false, Some(m), times[0]);
      [o] + Failures(o.profiles, email, m, times[1..])
  }

  /** Starting from count `c`, consecutive failures (none of them refused)
      count up one at a time, and the one that reaches 5 locks. */
  lemma {:induction false} FailuresCountUp(profiles: map<string, AttemptRecord>, email: string, m: string, times: seq<int>, c: nat)
    requires email in profiles && FailedCount(profiles[email]) == c
    requires c + |times| <= LockThreshold
    requires forall i :: 0 <= i < |times| ==> !IsLocked(profiles[email], times[i])
    ensures var r := Failures(profiles, email, m, times);
      forall i :: 0 <= i < |times| ==>
        && email in r[i].profiles
        && r[i].profiles[email].failedAttempts == Some(c + i + 1)
        && (c + i + 1 < LockThreshold ==>
              r[i].message == AttemptsRemaining(LockThreshold - (c + i + 1))
              && r[i].profiles[email].lockedUntil == profiles[email].lockedUntil)
        && (c + i + 1 == LockThreshold ==>
              r[i].message == JustLocked && r[i].locks
              && r[i].profiles[email].lockedUntil == Some(times[i] + LockDurationMs))
    decreases |times|
  {
    if |times| > 0 {
      var o := Attempt(profiles, email, [], false, Some(m), times[0]);
      var r := Failures(profiles, email, m, times);
      assert r == [o] + Failures(o.profiles, email, m, times[1..]);
      FailureCounts(profiles, email, m, times[0]);
      if c + 1 < LockThreshold {
        forall i | 0 <= i < |times[1..]| ensures !IsLocked(o.profiles[email], times[1..][i]) {
          assert times[1..][i] == times[i + 1];
        }
        FailuresCountUp(o.profiles, email, m, times[1..], c + 1);
        forall i | 1 <= i < |times|
          ensures r[i] == Failures(o.profiles, email, m, times[1..])[i - 1] && times[i] == times[1..][i - 1]
        {
        }
      }
    }
  }

  /** The events of those failures: each one below 5 logs
      `failed_login_attempt` with its count and the error, and the one that
      reaches 5 logs `account_locked` with count 5 and the lock's end. */
  lemma {:induction false} FailureEventsCountUp(profiles: map<string, AttemptRecord>, email: string, m: string,
                                                times: seq<int>, c: nat)
    requires email in profiles && FailedCount(profiles[email]) == c
    requires c + |times| <= LockThreshold
    requires forall i :: 0 <= i < |times| ==> !IsLocked(profiles[email], times[i])
    ensures var r := Failures(profiles, email, m, times);
      forall i :: 0 <= i < |times| ==>
        && (c + i + 1 < LockThreshold ==> r[i].events == [FailureEvent(email, c + i + 1, m)])
        && (c + i + 1 == LockThreshold ==> r[i].events == [LockEvent(email, LockThreshold, times[i] + LockDurationMs)])
    decreases |times|
  {
    if |times| > 0 {
      var o := Attempt(profiles, email, [], false, Some(m), times[0]);
      var r := Failures(profiles, email, m, times);
      assert r == [o] + Failures(o.profiles, email, m, times[1..]);
      FailureCounts(profiles, email, m, times[0]);
      if c + 1 < LockThreshold {
        forall i | 0 <= i < |times[1..]| ensures !IsLocked(o.profiles[email], times[1..][i]) {
          assert times[1..][i] == times[i + 1];
        }
        FailureEventsCountUp(o.profiles, email, m, times[1..], c + 1);
        forall i | 1 <= i < |times|
          ensures r[i] == Failures(o.profiles, email, m, times[1..])[i - 1] && times[i] == times[1..][i - 1]
        {
        }
      }
    }
  }

  /** From a clean record, five failures report 4, 3, 2 and 1 remaining
      attempts, each logging one `failed_login_attempt` event, and then lock
      the account until 15 minutes after the fifth, logging exactly one
      `account_locked` event;
      any attempt before that moment is refused. */
  lemma FiveFailuresLock(profiles: map<string, AttemptRecord>, email: string, m: string, times: seq<int>, later: int)
    requires email in profiles && FailedCount(profiles[email]) == 0
    requires |times| == 5
    requires forall i :: 0 <= i < 5 ==> !IsLocked(profiles[email], times[i])
    requires later < times[4] + LockDurationMs
    ensures var r := Failures(profiles, email, m, times);
      && r[0].message == AttemptsRemaining(4) && r[1].message == AttemptsRemaining(3)
      && r[2].message == AttemptsRemaining(2) && r[3].message == AttemptsRemaining(1)
      && (forall i :: 0 <= i < 4 ==> r[i].events == [FailureEvent(email, i + 1, m)])
      && r[4].events == [LockEvent(email, 5, times[4] + LockDurationMs)]
      && r[4].message == JustLocked && r[4].locks && email in r[4].profiles
      && r[4].profiles[email] == AttemptRecord(Some(5), Some(times[4] + LockDurationMs))
      && Attempt(r[4].profiles, email, [], false, None, later).message == LockedAccount
      && !Attempt(r[4].profiles, email, [], false, None, later).credentialChecked
  {
    FailuresCountUp(profiles, email, m, times, 0);
    FailureEventsCountUp(profiles, email, m, times, 0);
    var r := Failures(profiles, email, m, times);
    assert r[4].profiles[email].failedAttempts == Some(5);
    LockedAttemptRefused(r[4].profiles, email, None, later);
  }
}
