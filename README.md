# A verified model of the CRM front end's decision logic

This project is a Dafny model of the parts of the CRM web application and its
admin edge function that make real decisions. The rest of those programs is
React rendering and calls to the hosted Postgres/Supabase backend. The model
covers:

- the login form's submit handler, with its per-email failed-attempt counter
  and 15-minute lock;
- the session bootstrap: the five authentication state cells and the
  `clientProfile` key in local storage, the platform auth events and the
  `fetchUserRole` retry policy;
- the context the authentication provider publishes;
- the security manager: the fixed-window rate limiter, the cache reset, the
  five-rule password policy, the tag-stripping sanitiser and the base64
  "encryption" (section 4 of RFC 4648, decoded as the WHATWG Infra standard's
  forgiving-base64 decode, section 4.8);
- the contact screen: the CSV importer, the visible-list filter, the
  selection check boxes, and the name and tag-badge cells;
- the data hooks for contacts, campaigns, SMS credits, activated services,
  service-activation requests and API credentials, including whose id a
  record is stamped with and which defaults are filled in;
- the M-Pesa transaction monitor's range, search and summary cards;
- the USSD analytics summary: totals, distinct users, path counts, top five
  paths and top six hours;
- the client sidebar's activation filter;
- the admin-profile-management endpoint: its gate (preflight, 401, 403),
  its dispatch over six actions (400 for anything else), its 500 on a thrown
  error, the profile merge, the four audited updates and the audit-log query.

Remote reads are inputs to the model: a read's answer, its error, or a
rejected promise. Remote writes are outputs, or fields of a class that the
methods update. The clock is an integer parameter in milliseconds. A
timer-driven or racing step is a separate, nondeterministically ordered
operation.

Each module follows the form of its source:

- The login handler is a class. Its state cells, the `profiles` table (a map
  from e-mail to attempt record), local storage and the security-event log are
  fields, and `HandleSubmit` is proved against the specification function
  `Attempt`.
- The session bootstrap is a class with the five state cells, the storage
  entry, the list of scheduled role fetches and the phase `getSession` has
  reached. `getSession` is three methods, one per await, so auth events can
  be delivered between them. Each method's final state is a function of its
  starting state, and the lemmas are about those functions.
- The rate limiter is a class whose map is updated in place.
- The CSV row builder and the two USSD counting loops are methods with loop
  invariants.
- Everything else is functions with lemmas.

Module layout:

- `common.dfy`: Option/Result, JavaScript string helpers, filters, counts and
  sums.
- `topk.dfy`: a stable descending sort followed by `slice(0, k)`.
- `counters.dfy`: an object used as a counter, with its insertion order.
- `ownership.dfy`: the two owner-resolution rules used by the hooks.
- `date_range.dfy`: the "last N days" start instant.
- One module for each source file of the core.

## Model

| member | source | states |
|---|---|---|
| AuthProvider.ProvideContext | src/components/auth/AuthProvider.tsx:26-36 | The five cells pass through unchanged. isAuthenticated holds iff a user or a client profile is present. isClientProfile holds iff a client profile is present, and it implies isAuthenticated. |
| Ownership.OwnerId | src/hooks/useContacts.ts:44-54 | The owner is the client profile's id for a client-profile session that has one, else the user's id, else the error 'No authenticated user found'. OwnerResolvedIffEnabled and ClientProfileWins state its cases. |
| Ownership.QueryKeyId | src/hooks/useMyActivatedServices.ts:23 | The query key's id is the client profile's id in a client-profile session, else the user's id. OwnerResolvedIffEnabled ties it to OwnerId. |
| Ownership.CurrentUserId | src/hooks/useMyActivatedServices.ts:25-26 | The id used by the services hooks is the query-key id: the client profile's id for a client-profile session, else the user's id. It is never the empty string. |
| Ownership.OwnerResolvedIffEnabled | src/hooks/useContacts.ts:42-54 | In a published context, owner resolution succeeds exactly when the query is enabled, which is exactly when the caller is authenticated. Otherwise it fails with 'No authenticated user found'. The query key is the owning id. |
| Ownership.ClientProfileWins | src/hooks/useContacts.ts:44-50 | When a client profile is present, its id is the owner and the query key, even if a platform user is also present. |
| Ownership.CurrentUserIdAgrees | src/hooks/useServiceActivation.ts:19-20 | The two owner rules agree whenever the stricter one finds a non-empty id. |
| LoginHandler.MessageText | src/components/auth/login/useLoginHandler.ts:74-136 | The exact error texts shown under the form. The text is empty iff no message is set. |
| LoginHandler.LoginForm.constructor | src/components/auth/login/useLoginHandler.ts:9-11 | The form starts not loading, with no error and not locked. It holds the given tables and an empty event log. |
| LoginHandler.Attempt | src/components/auth/login/useLoginHandler.ts:16-142 | One login submission. A client-profile match short-circuits; otherwise the lock gate and the credential check run. ClientProfileShortCircuit, LockedAttemptRefused, SuccessResets, FailureCounts and OnlySuccessResets state its outcomes. |
| LoginHandler.CheckedAttempt | src/components/auth/login/useLoginHandler.ts:85-142 | The credential check after the lock gate. SuccessResets, FailureCounts, UnknownEmailFailure and RelockAfterFive state its outcomes. |
| LoginHandler.LoginForm.HandleSubmit | src/components/auth/login/useLoginHandler.ts:16-146 | The new table, error, lock flag, events, storage entry, client last-login and read/check counters are those `Attempt` describes. isLoading is false on return. |
| LoginHandler.LoginForm.StandardLogin | src/components/auth/login/useLoginHandler.ts:62-145 | After no client-profile match, the new table, error, lock flag, events and counters are those `Attempt` describes with no client rows. The storage entry and client last-login stay as they were. The attempt record is read once. |
| LoginHandler.LoginForm.CheckCredentials | src/components/auth/login/useLoginHandler.ts:85-142 | Once the gate has passed, the new table, error, lock flag and events are those `CheckedAttempt` describes. The credentials are checked once. |
| LoginHandler.ClientProfileShortCircuit | src/components/auth/login/useLoginHandler.ts:31-60 | A client-profile match stores the first row as {id, name, row email or else the typed identifier, phone}. It reads and writes no attempt record, checks no credentials and sets no error. It logs one `successful_client_login` event with the row's client_id and client_name. |
| LoginHandler.LockedAttemptRefused | src/components/auth/login/useLoginHandler.ts:72-83 | A record locked strictly past now refuses the attempt with the locked message. It checks no credentials and writes nothing. It logs one `login_attempt_on_locked_account` event with the email and the stored locked_until. |
| LoginHandler.LockExpiresAtItsTime | src/components/auth/login/useLoginHandler.ts:72 | A lock time equal to now has expired, so the credentials are checked. |
| LoginHandler.SuccessResets | src/components/auth/login/useLoginHandler.ts:85-96 | A successful standard login sets the record to attempts 0 and no lock, whatever it held. It logs one `successful_login` event with the email. |
| LoginHandler.FailureCounts | src/components/auth/login/useLoginHandler.ts:104-127 | A failure for a known, unlocked email writes old count + 1 and changes no other record. At 5 or more it locks until now + 900000 ms with the just-locked message. Below 5 it reports 5 − n remaining and keeps a lock time that is no longer in force. It logs one `account_locked` event with the email, the new count and the lock's end when it locks. Otherwise it logs one `failed_login_attempt` event with the email, the new count and the error's message. |
| LoginHandler.RemainingBetweenOneAndFour | src/components/auth/login/useLoginHandler.ts:117-127 | A remaining-attempts message always reports between 1 and 4. |
| LoginHandler.UnknownEmailFailure | src/components/auth/login/useLoginHandler.ts:135-141 | A failure with no attempt record reports 'Invalid email or password', logs exactly one `failed_login_unknown_email` event with the email and the error's message, and writes no record. |
| LoginHandler.OnlySuccessResets | src/components/auth/login/useLoginHandler.ts:88-115 | Apart from a successful standard login, no submission lowers any email's count or changes the set of emails. |
| LoginHandler.RelockAfterFive | src/components/auth/login/useLoginHandler.ts:105-107 | Once the count is at least 5, the first failure after the lock expires locks again for 15 minutes. |
| LoginHandler.Failures | src/components/auth/login/useLoginHandler.ts:16-146 | The outcomes of consecutive failed submissions, all rejected with the same error message, one per attempt time. |
| LoginHandler.FailuresCountUp | src/components/auth/login/useLoginHandler.ts:104-127 | Unrefused consecutive failures from count c write c+1, c+2, …: each reports the remaining attempts, and the one reaching 5 locks until 15 minutes after it. |
| LoginHandler.FailureEventsCountUp | src/components/auth/login/useLoginHandler.ts:117-134 | Those failures log `failed_login_attempt` with the email, the new count and the error's message. The one reaching 5 logs `account_locked` with the email, count 5 and the lock's end. |
| LoginHandler.FiveFailuresLock | src/components/auth/login/useLoginHandler.ts:72-127 | From a clean record, five failures report 4, 3, 2 and 1 remaining, each logging one `failed_login_attempt` event with counts 1 to 4. The fifth locks until 15 minutes after it and logs exactly one `account_locked` event with count 5 and that lock end. Before then, even correct credentials are refused unchecked. |
| AuthState.FetchUserRole | src/components/auth/auth-provider/useAuthState.ts:13-81 | The role is never empty: it is a stored non-empty role or 'user'. A retry (two reads, 1000 ms wait) happens iff the first read reports a non-network error. |
| AuthState.RoleTimeoutYieldsUser | src/components/auth/auth-provider/useAuthState.ts:18-31 | A role read that loses to the 5000 ms timer yields 'user' after one read. |
| AuthState.RoleFoundFirstTime | src/components/auth/auth-provider/useAuthState.ts:64-67 | A non-empty role found on the first read is returned as is, after one read. |
| AuthState.RoleRetryPolicy | src/components/auth/auth-provider/useAuthState.ts:33-61 | A 'Failed to fetch' or 'timeout' error returns 'user' without a retry. Any other error retries once after 1000 ms, and only the retry's answer decides the role. |
| AuthState.AuthStateCells.constructor | src/components/auth/auth-provider/useAuthState.ts:7-11 | No user, session, client profile or role, with loading true, over the given storage. |
| AuthState.CheckStored | src/components/auth/auth-provider/useAuthState.ts:83-98 | Reading the stored client profile entry. StoredProfileAdopted and UnreadableEntryDiscarded state its three cases. |
| AuthState.AuthEventStep | src/components/auth/auth-provider/useAuthState.ts:103-135 | One auth state change event. SignOutKeepsClientProfile and SessionEventReplacesClientProfile state its two branches. |
| AuthState.GetSessionStep | src/components/auth/auth-provider/useAuthState.ts:137-204 | `getSession` run without interruption. GetSessionUninterrupted, SessionErrorHandling and LoadingEnds state it. |
| AuthState.AuthStateCells.CheckClientProfileSession | src/components/auth/auth-provider/useAuthState.ts:83-98 | The result and the new cells are those of `CheckStored` on the old cells. |
| AuthState.AuthStateCells.OnAuthStateChange | src/components/auth/auth-provider/useAuthState.ts:103-135 | The new cells are those of `AuthEventStep` on the old cells. |
| AuthState.AuthStateCells.DeliverScheduledRole | src/components/auth/auth-provider/useAuthState.ts:123-128 | One scheduled role fetch, in any order, completes with `FetchUserRole` and leaves the pending list. |
| AuthState.BootStart | src/components/auth/auth-provider/useAuthState.ts:139-146 | The first step of `getSession`: an adopted stored entry finishes it with loading off; otherwise the cells are those of the stored-entry check and the session read is awaited. |
| AuthState.BootSessionAnswer | src/components/auth/auth-provider/useAuthState.ts:147-203 | The session answer: the role read is awaited iff the answer has no error and a session with a user, which is then adopted. Otherwise it finishes with loading off, leaving client profile, storage and pending fetches alone. |
| AuthState.BootRoleAnswer | src/components/auth/auth-provider/useAuthState.ts:182-203 | The role answer sets the role to `FetchUserRole`'s result and ends loading. Nothing else changes. |
| AuthState.AuthStateCells.StartGetSession | src/components/auth/auth-provider/useAuthState.ts:139-146 | The new cells are those of `BootStart` on the old cells. |
| AuthState.AuthStateCells.ReceiveSession | src/components/auth/auth-provider/useAuthState.ts:147-203 | The new cells are those of `BootSessionAnswer` on the old cells. |
| AuthState.AuthStateCells.ReceiveSessionRole | src/components/auth/auth-provider/useAuthState.ts:182-203 | The new cells are those of `BootRoleAnswer` on the old cells. |
| AuthState.AuthStateCells.GetSession | src/components/auth/auth-provider/useAuthState.ts:137-204 | Run without interruption, the three steps leave the cells those of `GetSessionStep` on the old cells, finished. |
| AuthState.GetSessionUninterrupted | src/components/auth/auth-provider/useAuthState.ts:137-204 | The three steps of `getSession`, with no event between them, compose to the single step `GetSessionStep`. |
| AuthState.SignOutDuringSessionReadUndone | src/components/auth/auth-provider/useAuthState.ts:103-181 | A SIGNED_OUT event delivered while the session read is awaited is undone: the late answer re-adopts the user and goes on to read the role. |
| AuthState.SignOutDuringRoleReadKeepsRole | src/components/auth/auth-provider/useAuthState.ts:103-187 | A SIGNED_OUT event delivered while the role read is awaited leaves no user, but the late answer still sets a role. |
| AuthState.BootStepsKeepInvariants | src/components/auth/auth-provider/useAuthState.ts:139-203 | Each step of `getSession` keeps the role non-empty, and the whole run ends loading. |
| AuthState.StoredProfileAdopted | src/components/auth/auth-provider/useAuthState.ts:85-92 | A parsable stored entry is adopted with role 'user', and loading ends. The outcome does not depend on the session or role reads. |
| AuthState.UnreadableEntryDiscarded | src/components/auth/auth-provider/useAuthState.ts:93-97 | An unparsable entry is removed and counts as no client session. An empty string is kept and also ignored. |
| AuthState.SignOutKeepsClientProfile | src/components/auth/auth-provider/useAuthState.ts:107-114 | SIGNED_OUT or a null session clears session, user and role and ends loading. The client profile, the storage key and the pending fetches stay. |
| AuthState.SessionEventReplacesClientProfile | src/components/auth/auth-provider/useAuthState.ts:116-133 | Any other event with a session drops the client profile and its key and adopts the session and user. If a user is present it schedules that user's role fetch; otherwise it clears the role. |
| AuthState.SessionErrorHandling | src/components/auth/auth-provider/useAuthState.ts:160-175 | A network-class session error nulls user, session and role. Any other error changes only isLoading. |
| AuthState.LoadingEnds | src/components/auth/auth-provider/useAuthState.ts:112-203 | isLoading is false after `getSession` on every path and after every auth event. |
| AuthState.RoleNonEmptyPreserved | src/components/auth/auth-provider/useAuthState.ts:90-188 | No transition ever sets an empty role. |
| AuthState.ContextAfterTransitions | src/components/auth/AuthProvider.tsx:33-35 | After a user sign-in event, the context is authenticated and not a client profile. After adopting a stored entry, it is a client-profile context with role 'user'. |
| AuthState.StaleRoleAfterSignOut | src/components/auth/auth-provider/useAuthState.ts:107-128 | A role fetch scheduled before a sign-out can still set a role afterwards, while no user is present. |
| EnhancedSecurity.RateKey | src/lib/enhanced-security.ts:68 | The key is 'rate_limit_' followed by the identifier. |
| EnhancedSecurity.RateKeyInjective | src/lib/enhanced-security.ts:68 | Different identifiers get different keys. |
| EnhancedSecurity.SecurityManager.constructor | src/lib/enhanced-security.ts:9-12 | Both caches and the event log start empty. |
| EnhancedSecurity.RateStep | src/lib/enhanced-security.ts:66-87 | A call is either allowed or exceeded, never both. It touches only its own key, which is present afterwards. An exceeded call leaves the cache as it was. |
| EnhancedSecurity.SecurityManager.CheckServerRateLimit | src/lib/enhanced-security.ts:66-87 | The answer and the new rate cache are those of `RateStep`. A rejected call appends one `rate_limit_exceeded` event. The general cache is unchanged. |
| EnhancedSecurity.SecurityManager.ClearSecurityCaches | src/lib/enhanced-security.ts:89-92 | Empties the general cache and keeps the rate-limit counters. |
| EnhancedSecurity.RateWindowOpens | src/lib/enhanced-security.ts:71-74 | A first call, or one strictly after resetTime, stores count 1 with resetTime now + windowMs and succeeds. |
| EnhancedSecurity.RateWithinWindow | src/lib/enhanced-security.ts:76-86 | Up to and including resetTime, a call fails iff the count has reached the limit. A failure changes nothing and is logged. Otherwise the count grows by one. |
| EnhancedSecurity.RateKeysIndependent | src/lib/enhanced-security.ts:66-87 | A call never touches another identifier's entry. |
| EnhancedSecurity.RateCalls | src/lib/enhanced-security.ts:66-87 | The answers of consecutive calls for one identifier, one per call. |
| EnhancedSecurity.RateCallsInWindow | src/lib/enhanced-security.ts:76-86 | Within an open window holding c successes, the i-th further call succeeds iff c + i < limit. |
| EnhancedSecurity.WindowAdmitsFirstCalls | src/lib/enhanced-security.ts:66-86 | A fresh window admits exactly its first max(limit, 1) calls. |
| EnhancedSecurity.DefaultWindowAdmitsHundred | src/lib/enhanced-security.ts:66-86 | With the default limit of 100 per 60000 ms, a fresh window admits its first 100 calls up to 60000 ms after it opens and refuses every later call in it. |
| EnhancedSecurity.RateLimitExample | src/lib/enhanced-security.ts:66-87 | With limit 3 per 1000 ms, calls at 0, 10, 20, 30, 1000 and 1001 give true, true, true, false, false, true. |
| EnhancedSecurity.FailedRules | src/lib/enhanced-security.ts:140-158 | The broken rules in checking order (length ≥ 8, A–Z, a–z, digit, special character). A rule is listed iff it is broken. |
| EnhancedSecurity.ChecksInOrder | src/lib/enhanced-security.ts:140-158 | The five checks list at most five rules, in checking order. |
| EnhancedSecurity.ChecksListFailures | src/lib/enhanced-security.ts:140-158 | The five checks list a rule iff its test failed. |
| EnhancedSecurity.EnforcePasswordPolicy | src/lib/enhanced-security.ts:137-164 | One message per broken rule, in order. Valid iff there are no messages, iff every rule holds. |
| EnhancedSecurity.ShortPasswordExample | src/lib/enhanced-security.ts:140-141 | "Ab1!" gets only the length message. |
| EnhancedSecurity.LowercaseWordExample | src/lib/enhanced-security.ts:144-157 | "password" gets the uppercase, number and special-character messages. |
| EnhancedSecurity.StrongPasswordExample | src/lib/enhanced-security.ts:137-164 | "Str0ng!Pass" is valid with no messages. |
| EnhancedSecurity.LowercaseOnlyBreaks | src/lib/enhanced-security.ts:144-157 | A password of lower-case letters breaks the uppercase, digit and special-character rules. |
| Sanitizer.IndexOfFrom | src/lib/enhanced-security.ts:96-97 | The first index at or after `from` holding a character, or none. |
| Sanitizer.LazyClose | src/lib/enhanced-security.ts:96 | The lazy `.*?` match ends at the first `</script>` reached without crossing a line terminator. |
| Sanitizer.RunEnd | src/lib/enhanced-security.ts:99 | The end of a maximal run of word characters (or of white space). |
| Sanitizer.MatchAt | src/lib/enhanced-security.ts:96-99 | A match of any of the four patterns is non-empty and fits in the text. |
| Sanitizer.MatchScriptBlock | src/lib/enhanced-security.ts:96 | A script-block match starts at '<'. |
| Sanitizer.MatchTag | src/lib/enhanced-security.ts:97 | Without a match, a leading '<' has no '>' after it. |
| Sanitizer.MatchEventHandler | src/lib/enhanced-security.ts:99 | An `on\w+\s*=` match is non-empty. |
| Sanitizer.RemoveAll | src/lib/enhanced-security.ts:95-99 | A global replacement by '' never lengthens the text. It changes the text only by shortening it. |
| Sanitizer.RemoveAllDeletes | src/lib/enhanced-security.ts:95-99 | A replacement keeps a sub-multiset of the characters. |
| Sanitizer.DropDeletes | src/lib/enhanced-security.ts:95-99 | The same, at a matching position. |
| Sanitizer.KeepDeletes | src/lib/enhanced-security.ts:95-99 | The same, at a position with no match. |
| Sanitizer.Sanitize | src/lib/enhanced-security.ts:94-100 | The text comes back unchanged or strictly shorter. SanitizeOnlyDeletes, SanitizeLeavesNoTagPair and SanitizeLeavesJavascriptScheme state the rest. |
| Sanitizer.SanitizeOnlyDeletes | src/lib/enhanced-security.ts:94-100 | `sanitizeInput` never lengthens its input and never introduces a character. |
| Sanitizer.NoTagPairMeans | src/lib/enhanced-security.ts:97 | The recursive no-pair predicate means that no '<' has a '>' anywhere after it. |
| Sanitizer.TagRemovalLeavesNoPair | src/lib/enhanced-security.ts:97 | After `<[^>]*>` removal, no '<' is followed later by '>'. |
| Sanitizer.RemovalKeepsNoPair | src/lib/enhanced-security.ts:98-99 | Later removals keep that property. |
| Sanitizer.SuffixKeepsNoPair | src/lib/enhanced-security.ts:97 | A suffix of a text without a pair has none. |
| Sanitizer.SanitizeLeavesNoTagPair | src/lib/enhanced-security.ts:94-100 | The sanitised text contains no '<' followed later by '>'. |
| Sanitizer.UnchangedMeansNoMatch | src/lib/enhanced-security.ts:95-99 | A replacement that changes nothing found no match anywhere. |
| Sanitizer.NoMatchMeansUnchanged | src/lib/enhanced-security.ts:95-99 | With no match anywhere, a replacement leaves the text unchanged. |
| Sanitizer.NoAngleUnchanged | src/lib/enhanced-security.ts:96-97 | Text without '<' passes the first two patterns unchanged. |
| Sanitizer.NoOnUnchanged | src/lib/enhanced-security.ts:99 | Text without 'o'/'O' passes the event-handler pattern unchanged. |
| Sanitizer.KeepStep | src/lib/enhanced-security.ts:95-99 | Where nothing matches, the first character is kept and the scan resumes after it. |
| Sanitizer.LiteralLower | src/lib/enhanced-security.ts:98 | The pattern literal is already lower case. |
| Sanitizer.ShortUnchanged | src/lib/enhanced-security.ts:98 | Text shorter than "javascript:" is unchanged by its removal. |
| Sanitizer.SchemeMatches | src/lib/enhanced-security.ts:98 | "javascript:" matches itself in full. |
| Sanitizer.DropScheme | src/lib/enhanced-security.ts:98 | A leading "javascript:" is removed and the scan resumes after it. |
| Sanitizer.SecondCharJ | src/lib/enhanced-security.ts:98 | A text whose second character is 'j' does not start with the scheme. |
| Sanitizer.ExampleSplits | src/lib/enhanced-security.ts:98 | How the example text splits around its inner scheme. |
| Sanitizer.JavascriptSchemeRejoined | src/lib/enhanced-security.ts:98 | The scheme pass turns "jjavascript:avascript:" into "javascript:". |
| Sanitizer.ExampleChars | src/lib/enhanced-security.ts:96-99 | The example contains no '<', and "javascript:" contains no 'o'. |
| Sanitizer.SanitizeLeavesJavascriptScheme | src/lib/enhanced-security.ts:94-100 | As written, sanitising "jjavascript:avascript:" yields "javascript:", which the pattern still matches. |
| Sanitizer.SanitizeFully | src/lib/enhanced-security.ts:94-100 | Sanitising repeated to a fixpoint: no longer than the input, a sub-multiset of it, and left unchanged by one more pass. |
| Sanitizer.SanitizeFullyRemovesEveryPattern | src/lib/enhanced-security.ts:96-99 | The fixpoint holds no match of any of the four patterns, and no '<' followed later by '>'. |
| Sanitizer.SanitizeFullyExample | src/lib/enhanced-security.ts:98 | The fixpoint reduces the example to ''. |
| Base64.DecodeSextet | src/lib/enhanced-security.ts:118-120 | An alphabet character decodes to the 6-bit value that encodes back to it. |
| Base64.DecodeEncodeSextet | src/lib/enhanced-security.ts:113-120 | Every 6-bit value decodes back from its character. |
| Base64.SextetsOf | src/lib/enhanced-security.ts:113-116 | The 6-bit groups of the input bytes: all below 64, with length never 1 modulo 4. |
| Base64.EncodedLength | src/lib/enhanced-security.ts:113-116 | Groups plus padding fill whole blocks of four. |
| Base64.EncodedBlocks | src/lib/enhanced-security.ts:113-116 | There are ceil(n / 3) blocks. |
| Base64.SextetChars | src/lib/enhanced-security.ts:113-116 | Each group becomes its alphabet character, position by position. |
| Base64.Btoa | src/lib/enhanced-security.ts:115 | `btoa` fails iff a code point is above U+00FF. |
| Base64.Padding | src/lib/enhanced-security.ts:115 | One '=' for each byte missing from the last group of three. |
| Base64.StripWhitespace | src/lib/enhanced-security.ts:120 | The result is the input's characters other than ASCII white space, in order: the filter that keeps non-white-space characters. |
| Base64.StripPadding | src/lib/enhanced-security.ts:120 | The result is a prefix of the input that leaves out at most two characters, all of them '='. A length that is not a multiple of four is left alone. For a multiple of four, removal stops before two only at a character other than '='. |
| Base64.Sextets | src/lib/enhanced-security.ts:120 | Fails iff some character is outside the alphabet. Otherwise value i is `DecodeSextet` of character i, for every i, and each is below 64. |
| Base64.GroupBytes | src/lib/enhanced-security.ts:120 | n groups give 3·(n / 4) bytes, plus one fewer than the groups of a final partial block. Byte i is byte i mod 3 of block i / 3 (`DecodedByte`), and every byte is below 256. |
| Base64.DecodedShort | src/lib/enhanced-security.ts:120 | A final block of two or three groups gives one or two bytes, built from its groups' bits. |
| Base64.DecodedByteShift | src/lib/enhanced-security.ts:120 | Dropping the first block of four groups shifts every decoded byte back by three positions. |
| Base64.Atob | src/lib/enhanced-security.ts:120 | `atob` fails on a length of 1 modulo 4 or on a foreign character. Otherwise it yields byte-valued characters. |
| Base64.Encrypt | src/lib/enhanced-security.ts:113-116 | Encryption fails exactly when `btoa` would throw. |
| Base64.Decrypt | src/lib/enhanced-security.ts:118-125 | Decryption is the `atob` result, or '' when `atob` fails. |
| Base64.ByteAOfGroups | src/lib/enhanced-security.ts:113-120 | The first byte of a group is recovered from its groups. |
| Base64.ByteBOfGroups | src/lib/enhanced-security.ts:113-120 | The second byte is recovered. |
| Base64.ByteCOfGroups | src/lib/enhanced-security.ts:113-120 | The third byte is recovered. |
| Base64.FullGroup | src/lib/enhanced-security.ts:113-120 | A full group of three bytes round-trips. |
| Base64.LastTwo | src/lib/enhanced-security.ts:113-120 | A final pair of bytes round-trips. |
| Base64.LastOne | src/lib/enhanced-security.ts:113-120 | A final single byte round-trips. |
| Base64.GroupBytesOfSextets | src/lib/enhanced-security.ts:113-120 | Grouping the encoder's groups returns the input. |
| Base64.SextetsOfChars | src/lib/enhanced-security.ts:113-120 | Decoding the encoder's characters returns its groups. |
| Base64.StripWhitespaceNone | src/lib/enhanced-security.ts:120 | A string without ASCII white space is left unchanged by the stripping. |
| Base64.EncodingHasNoWhitespace | src/lib/enhanced-security.ts:113-120 | The encoding contains no white space. |
| Base64.PaddingStripped | src/lib/enhanced-security.ts:113-120 | Stripping removes exactly the encoder's padding. |
| Base64.LastNotPad | src/lib/enhanced-security.ts:113-120 | The encoding's body never ends in '='. |
| Base64.EncodingStrips | src/lib/enhanced-security.ts:113-120 | Stripping the encoding leaves its body. |
| Base64.DecryptEncrypt | src/lib/enhanced-security.ts:113-125 | For every string of code points ≤ U+00FF, decrypting its encryption gives it back. |
| Base64.EncryptLength | src/lib/enhanced-security.ts:113-116 | The encoding of n bytes has 4·ceil(n/3) characters. |
| Base64.EncryptAlphabet | src/lib/enhanced-security.ts:113-116 | The encoding is alphabet characters followed by the padding. |
| Base64.DecryptRejectsLengthOneModFour | src/lib/enhanced-security.ts:118-125 | A stripped length of 1 modulo 4 decrypts to ''. |
| Base64.DecryptRejectsForeignCharacter | src/lib/enhanced-security.ts:118-125 | A character outside the alphabet decrypts to ''. |
| Base64.DecryptIgnoresWhitespace | src/lib/enhanced-security.ts:118-125 | White space anywhere in the input does not change the decryption. |
| ContactsManager.RemoveQuotes | src/components/contacts/ContactsManager.tsx:137 | Removes every '"' and nothing else, so a quote-free value is unchanged. |
| ContactsManager.Cleaned | src/components/contacts/ContactsManager.tsx:137 | Each field loses its '"' characters, position by position, so no cleaned field contains one. |
| ContactsManager.ValueAt | src/components/contacts/ContactsManager.tsx:137 | A column past the end of the line reads as ''. Any other column reads its own field. |
| ContactsManager.TrimAll | src/components/contacts/ContactsManager.tsx:120-125 | Trims each field, position by position. |
| ContactsManager.RowFrom | src/components/contacts/ContactsManager.tsx:126-159 | A row built from any prefix of the columns has tags [] and is_active true. |
| ContactsManager.BuildRow | src/components/contacts/ContactsManager.tsx:126-161 | The `headers.forEach` loop builds exactly the row `RowFrom` describes for all columns. |
| ContactsManager.DataRows | src/components/contacts/ContactsManager.tsx:122-163 | At most one contact per line. Each has tags [], is_active true and a non-empty phone. |
| ContactsManager.ParseCsv | src/components/contacts/ContactsManager.tsx:118-163 | At most one contact per data line. Every contact has tags [], is_active true and a phone. |
| ContactsManager.LineRow | src/components/contacts/ContactsManager.tsx:125-160 | One line's contact, with tags [] and is_active true. LaterColumnWins and CustomFieldsCollected state its fields. |
| ContactsManager.LineRows | src/components/contacts/ContactsManager.tsx:124-160 | One contact per line, in order. Each is the line's fields laid out under the headers. |
| ContactsManager.LineRowsCons | src/components/contacts/ContactsManager.tsx:124-160 | Mapping one more line in front puts its contact in front. |
| ContactsManager.NonBlankLineMapped | src/components/contacts/ContactsManager.tsx:123-161 | A non-blank line adds its own contact when that contact has a phone, and nothing otherwise. |
| ContactsManager.DataRowsPipeline | src/components/contacts/ContactsManager.tsx:122-161 | The importer equals the source's chain: drop blank lines, map each line to its contact, then keep contacts with a phone. |
| ContactsManager.ParseCsvPipeline | src/components/contacts/ContactsManager.tsx:118-161 | The headers come from line 0, split on ',' and trimmed. Every later line goes through that chain. |
| ContactsManager.LastColumn | src/components/contacts/ContactsManager.tsx:136-153 | The last column whose header selects a given field, or none. |
| ContactsManager.LaterColumnWins | src/components/contacts/ContactsManager.tsx:136-153 | A named field holds the value of the last column mapped to it, or '' if no column maps to it. |
| ContactsManager.ColumnStep | src/components/contacts/ContactsManager.tsx:136-153 | A column that selects a field sets that field to its own value and becomes the field's last column. Any other column leaves both alone. |
| ContactsManager.ApplyColumn | src/components/contacts/ContactsManager.tsx:136-158 | One header's case of the switch. ColumnStep, ApplyColumnCustom and CustomColumnStep state its effect. |
| ContactsManager.ApplyColumnCustom | src/components/contacts/ContactsManager.tsx:154-157 | A column adds a custom field under its own header only when the header is not a named one and the value is non-empty. It leaves the other custom fields alone. |
| ContactsManager.CustomColumnStep | src/components/contacts/ContactsManager.tsx:154-157 | One more column holds a custom key iff the earlier columns did or the new column is a non-empty unnamed one with that header. That column's value then wins, and otherwise the earlier value stays. |
| ContactsManager.CustomFieldsCollected | src/components/contacts/ContactsManager.tsx:154-157 | A custom key is present iff some column with exactly that header is unnamed and non-empty. |
| ContactsManager.CustomFieldLastValue | src/components/contacts/ContactsManager.tsx:154-157 | A custom key holds the value of the last such column. |
| ContactsManager.ApplyColumnNoQuotes | src/components/contacts/ContactsManager.tsx:137-157 | A quote-free value keeps the row quote-free. |
| ContactsManager.QuoteFreeCells | src/components/contacts/ContactsManager.tsx:137-157 | Quote-free fields give a quote-free row for any prefix of the columns. |
| ContactsManager.ValuesHaveNoQuotes | src/components/contacts/ContactsManager.tsx:137-157 | No imported value contains '"'. |
| ContactsManager.BlankLineSkipped | src/components/contacts/ContactsManager.tsx:123 | A line that is blank after trimming adds no contact. |
| ContactsManager.HeaderAliases | src/components/contacts/ContactsManager.tsx:138-157 | Header matching ignores case and accepts firstname, lastname and mobile. A header is custom iff it is none of the seven names. |
| ContactsManager.Visible | src/components/contacts/ContactsManager.tsx:48-61 | A contact shows when it matches the search and the status filter. FilteredContacts and StatusFiltersPartition state the filter built on it. |
| ContactsManager.FilteredContacts | src/components/contacts/ContactsManager.tsx:48-61 | A contact is visible iff it is in the list and matches both the search (case-insensitive on names, e-mail and tags; as written on the phone) and the status filter. |
| ContactsManager.FilteredKeepsOrder | src/components/contacts/ContactsManager.tsx:48 | The visible list is a subsequence of the contacts. |
| ContactsManager.EmptySearchShowsAll | src/components/contacts/ContactsManager.tsx:48-61 | An empty search with 'all' shows every contact in order. |
| ContactsManager.StatusFiltersPartition | src/components/contacts/ContactsManager.tsx:56-58 | For any search, the 'active' and 'inactive' lists together have as many entries as the 'all' list. |
| ContactsManager.TickRow | src/components/contacts/ContactsManager.tsx:479-480 | Ticking a row keeps the old selection in place and appends the contact after it, so the selection grows by one and the row's box is checked. |
| ContactsManager.TickRowChecked | src/components/contacts/ContactsManager.tsx:476-480 | After ticking, a row is checked iff it was checked before or it is the ticked contact's row. |
| ContactsManager.RowCheckedCons | src/components/contacts/ContactsManager.tsx:477 | A row is checked in x + rest iff x or some entry of rest has its id. |
| ContactsManager.UntickRow | src/components/contacts/ContactsManager.tsx:481-482 | Unticking removes every entry with that id. Every other row's box keeps its state. |
| ContactsManager.UntickStep | src/components/contacts/ContactsManager.tsx:481-482 | Filtering one more entry keeps the unticked row unchecked, keeps every other row's state, and keeps only entries of the selection. |
| ContactsManager.HeaderToggle | src/components/contacts/ContactsManager.tsx:455-461 | Ticking the header selects exactly the visible list and unticking clears it. HeaderToggleEffect states it. |
| ContactsManager.HeaderToggleEffect | src/components/contacts/ContactsManager.tsx:455-461 | Ticking the header checks it and exactly the visible rows: every visible row, and no row whose id is not visible. The header shows checked only for a non-empty list. Unticking clears every row and the header. |
| ContactsManager.HeaderCheckedWithoutSelection | src/components/contacts/ContactsManager.tsx:455 | As written, the header box is checked while a visible row is not selected. |
| ContactsManager.AllVisibleSelectedMeans | src/components/contacts/ContactsManager.tsx:455-461 | The corrected header state means that every visible row is ticked, and it agrees with the header's own toggle. |
| ContactsManager.DisplayName | src/components/contacts/ContactsManager.tsx:490-493 | 'No Name' when both parts are empty or missing. |
| ContactsManager.TrimmedUnchanged | src/components/contacts/ContactsManager.tsx:491 | Trimming a text without outer white space leaves it unchanged. |
| ContactsManager.DisplayNameBothParts | src/components/contacts/ContactsManager.tsx:490-493 | With both parts present and trimmed, the name is "first last". |
| ContactsManager.DisplayNameFirstOnly | src/components/contacts/ContactsManager.tsx:490-493 | With only a trimmed first name, the name is that first name, without a trailing space. |
| ContactsManager.DisplayNameLastOnly | src/components/contacts/ContactsManager.tsx:490-493 | With only a trimmed last name, the name is that last name, without a leading space. |
| ContactsManager.Badges | src/components/contacts/ContactsManager.tsx:495-506 | At most two badges, a prefix of the tags. A "+n" badge appears iff there are more than two tags. |
| ContactsManager.BadgesCountEveryTag | src/components/contacts/ContactsManager.tsx:497-505 | The first min(2, n) tags are shown, and "+" followed by n − 2 accounts for the rest. |
| Contacts.Stamp | src/hooks/useContacts.ts:82-85 | The record carries the input's fields, custom_fields and metadata included, with user_id set to the owner. |
| Contacts.StampOverridesUserId | src/hooks/useContacts.ts:82-85 | A user_id supplied in the input never survives stamping. |
| Contacts.CreateContact | src/hooks/useContacts.ts:70-85 | Inserts the stamped input iff an owner resolves. Otherwise it fails with 'No authenticated user found'. |
| Contacts.ContactsQuery | src/hooks/useContacts.ts:41-68 | Reports exactly the owner's rows iff an owner resolves and the read succeeds. With no owner it fails with 'No authenticated user found', and a failed read fails with the read's own error. |
| Contacts.QueryRunsForOwner | src/hooks/useContacts.ts:42-67 | The query is enabled iff it can resolve an owner, and it is keyed by that owner. It reports rows iff it is enabled and its read succeeds. |
| Contacts.ImportRows | src/hooks/useContacts.ts:148-153 | Every inserted row has the owner, a phone and both names. Every importable input is inserted, stamped. |
| Contacts.ImportedRowsFromInputs | src/hooks/useContacts.ts:148-153 | Every inserted row is the stamped form of some importable input. |
| Contacts.StampAll | src/hooks/useContacts.ts:150-153 | Stamps each input, position by position. |
| Contacts.ImportIsFilterThenStamp | src/hooks/useContacts.ts:148-153 | The import equals filtering the importable inputs and then stamping them. |
| Contacts.ImportContacts | src/hooks/useContacts.ts:135-153 | Inserts the import rows iff an owner resolves. Otherwise it fails with the owner error. |
| Contacts.ImportKeepsOrder | src/hooks/useContacts.ts:148-153 | The inserted rows keep the input order. |
| Contacts.MergeAsWritten | src/hooks/useContacts.ts:170-176 | As written: deletes exactly the rows whose ids are listed as duplicates. |
| Contacts.MergeCanDeletePrimary | src/hooks/useContacts.ts:170-176 | As written, a primary id listed among the duplicates is deleted. |
| Contacts.MergeContacts | src/hooks/useContacts.ts:169-178 | Corrected: deletes the listed duplicates but never the primary. Every kept row is unchanged. |
| Contacts.MergeAgreesWhenPrimaryUnlisted | src/hooks/useContacts.ts:170-176 | The two agree whenever the primary is not listed. |
| Contacts.CreateContactGroup | src/hooks/useContacts.ts:185-193 | Creating a group writes nothing: the contacts table is unchanged. |
| Campaigns.DeliveryRate | src/hooks/useCampaigns.ts:168 | (delivered / sent) · 100 as an exact quotient, or 0 when nothing was sent. |
| Campaigns.GetCampaignStats | src/hooks/useCampaigns.ts:145-170 | All zero when no campaigns are loaded. Otherwise total = totalCampaigns = the count, and active = activeCampaigns. |
| Campaigns.EmptyStatsAreZero | src/hooks/useCampaigns.ts:146-155 | An empty list gives the same all-zero statistics as no list. |
| Campaigns.StatusCountsBounded | src/hooks/useCampaigns.ts:162-164 | active + completed + failed ≤ total. |
| Campaigns.CountersAreFilterLengths | src/hooks/useCampaigns.ts:162-165 | Each counter is the length of its status filter. |
| Campaigns.StatsOfAppended | src/hooks/useCampaigns.ts:157-166 | One more campaign adds 1 to the total, 1 to its own status counter, and its delivered count (0 if missing) to the delivered sum. |
| Campaigns.DeliveryRateMeaning | src/hooks/useCampaigns.ts:157-168 | With non-negative counts the rate is non-negative, and it is 0 iff nothing was delivered or nothing was sent. |
| Campaigns.CreateCampaign | src/hooks/useCampaigns.ts:69-95 | The record is built iff an owner resolves, and carries the owner's id, name, type, content and schedule. Otherwise it fails with the owner error. |
| Campaigns.CreateCampaignDefaults | src/hooks/useCampaigns.ts:87-89 | The message falls back to the content, the status to 'draft' and the recipient count to 0. Supplied non-empty values are kept. |
| Campaigns.CampaignOwnedByClientProfile | src/hooks/useCampaigns.ts:73-76 | A client profile owns its campaigns even when a user is present. |
| Credits.NumOr | src/hooks/useUserCredits.ts:50 | JavaScript `x \|\| d` on a nullable number: null and 0 fall through to d. |
| Credits.DefaultCredits | src/hooks/useUserCredits.ts:82-91 | The all-zero 'default' SMS record of the owner. |
| Credits.FromBalance | src/hooks/useUserCredits.ts:50-60 | All three counts equal the balance (0 when missing), under the profile's id. |
| Credits.FromRow | src/hooks/useUserCredits.ts:74-79 | Copies the row and fills credits_remaining. |
| Credits.CreditsQuery | src/hooks/useUserCredits.ts:23-95 | Fails iff a platform user's read fails, passing on its message. Null iff no owner resolves. A platform user with no stored row gets the all-zero default record under their id. A stored row is returned with its remaining count filled in. |
| Credits.ClientProfileCredits | src/hooks/useUserCredits.ts:26-60 | A client profile always gets a record, never an error: all zero on a failed balance read, otherwise the balance in all three counts. |
| Credits.UserRowCredits | src/hooks/useUserCredits.ts:74-79 | credits_remaining falls back to credits and then to 0 when falsy. Every other column is copied. |
| Credits.CreditsBelongToOwner | src/hooks/useUserCredits.ts:23-95 | A reported record belongs to the owner. |
| Credits.PurchaseCredits | src/hooks/useUserCredits.ts:101-122 | The update exists iff an owner resolves. It targets the owner's SMS row in `user_credits` and adds the amount to each held count (missing as 0). |
| Credits.PurchaseAfterBalance | src/hooks/useUserCredits.ts:50-122 | A client profile's purchase writes balance + amount to all three counts, in `user_credits` under its id. |
| Credits.PurchasesAccumulate | src/hooks/useUserCredits.ts:113-118 | Buying a and then b, from the record the first purchase writes, ends where buying a + b at once ends, in all three counts. |
| DateRange.ReplaceFirst | src/components/services/mpesa/MpesaTransactionMonitor.tsx:40 | Removes the first occurrence only, or leaves the text unchanged. |
| DateRange.RangeStart | src/components/services/mpesa/MpesaTransactionMonitor.tsx:39-46 | The start is N days before now, or an error when the number does not parse or the instant leaves the Date range. |
| DateRange.RemoveTrailingD | src/components/services/mpesa/MpesaTransactionMonitor.tsx:40 | 'Nd' loses its 'd'. |
| DateRange.ReplaceFirstSkipsDigits | src/components/services/mpesa/MpesaTransactionMonitor.tsx:40 | The 'd' after the digits is the first one. |
| DateRange.RangeOfDays | src/components/services/mpesa/MpesaTransactionMonitor.tsx:39-41 | A range 'Nd' starts exactly N · 86400000 ms before now. |
| Mpesa.QueryRows | src/components/services/mpesa/MpesaTransactionMonitor.tsx:43-51 | Exactly the rows on or after the start, of the chosen type unless the type is 'all'. |
| Mpesa.AllTypesKeepsEveryType | src/components/services/mpesa/MpesaTransactionMonitor.tsx:49-51 | The 'all' filter excludes no row on its type. |
| Mpesa.FilteredTransactions | src/components/services/mpesa/MpesaTransactionMonitor.tsx:59-64 | A transaction is kept iff the term is empty or the reference or description contains it (case-sensitive). |
| Mpesa.SearchKeepsOrder | src/components/services/mpesa/MpesaTransactionMonitor.tsx:59 | The search keeps the list's order. |
| Mpesa.EmptySearchKeepsAll | src/components/services/mpesa/MpesaTransactionMonitor.tsx:60 | An empty search keeps every transaction. |
| Mpesa.Stats | src/components/services/mpesa/MpesaTransactionMonitor.tsx:66-71 | totalTransactions is the number kept by the search. |
| Mpesa.StatsBounded | src/components/services/mpesa/MpesaTransactionMonitor.tsx:69-70 | successful + pending ≤ totalTransactions. |
| Mpesa.StatsOfAppended | src/components/services/mpesa/MpesaTransactionMonitor.tsx:66-71 | A kept transaction adds its amount to the total and counts once, in its own status card. |
| Counters.Bump | src/components/services/ussd/USSDAnalytics.tsx:59 | `(counts[k] \|\| 0) + 1` always leaves k counted. |
| Counters.TallyOfAppend | src/components/services/ussd/USSDAnalytics.tsx:56-61 | Counting one more key is one more increment. |
| Counters.TallyOf | src/components/services/ussd/USSDAnalytics.tsx:55-61 | The counter built one key at a time. TallyWellFormed, TallyCounts and TallyTotal state it. |
| Counters.TallyWellFormed | src/components/services/ussd/USSDAnalytics.tsx:55-61 | The counter lists each key once and counts exactly the keys seen. |
| Counters.TallyCounts | src/components/services/ussd/USSDAnalytics.tsx:55-61 | Each key's count is its number of occurrences. |
| Counters.TallyTotal | src/components/services/ussd/USSDAnalytics.tsx:55-61 | The counts add up to the number of keys counted. |
| Counters.SumBumped | src/components/services/ussd/USSDAnalytics.tsx:59 | Raising one key's count raises the sum by one. |
| Counters.SumUnchanged | src/components/services/ussd/USSDAnalytics.tsx:59 | Counts that agree on every key have the same sum. |
| TopK.Insert | src/components/services/ussd/USSDAnalytics.tsx:64 | Insertion into a list sorted by descending key. |
| TopK.InsertMultiset | src/components/services/ussd/USSDAnalytics.tsx:64 | Insertion adds exactly the element. |
| TopK.InsertSorted | src/components/services/ussd/USSDAnalytics.tsx:64 | Insertion keeps the list sorted. |
| TopK.SortDesc | src/components/services/ussd/USSDAnalytics.tsx:64 | `sort` by descending key gives a sorted permutation. |
| TopK.Top | src/components/services/ussd/USSDAnalytics.tsx:63-66 | `sort` then `slice(0, k)`: exactly min(k, n) entries, sorted. |
| TopK.TopFromInput | src/components/services/ussd/USSDAnalytics.tsx:63-66 | The top entries come from the input. |
| TopK.TopKeepsAllWhenFew | src/components/services/ussd/USSDAnalytics.tsx:63-66 | With at most k entries, every entry is kept. |
| TopK.TopIsMaximal | src/components/services/ussd/USSDAnalytics.tsx:63-66 | An entry left out has a key no larger than any kept one. |
| TopK.TopDistinct | src/components/services/ussd/USSDAnalytics.tsx:74-77 | Distinct input gives distinct top entries. |
| TopK.MultiplicityAtLeastTwo | src/components/services/ussd/USSDAnalytics.tsx:74-77 | An element at two positions occurs at least twice. |
| TopK.DistinctMultiplicity | src/components/services/ussd/USSDAnalytics.tsx:74-77 | In a list without repeats, each element occurs once. |
| Ussd.SessionPathKeys | src/components/services/ussd/USSDAnalytics.tsx:56-57 | One key per session, position by position: the session's `navigation_path` joined with ' → ', or '' without one. |
| Ussd.PathKeys | src/components/services/ussd/USSDAnalytics.tsx:55-61 | The counted keys are the non-empty per-session path keys, in session order (a filter of `SessionPathKeys`). |
| Ussd.Hours | src/components/services/ussd/USSDAnalytics.tsx:69-72 | One hour per session. |
| Ussd.HourOrder | src/components/services/ussd/USSDAnalytics.tsx:74-75 | The counted hours, each once, in ascending order. Hours are 0 to 23, as `getHours` returns, so they are array-index keys, which `Object.entries` lists in ascending order. |
| Ussd.TallyPaths | src/components/services/ussd/USSDAnalytics.tsx:55-61 | The `pathCounts` loop builds exactly the counter of the path keys (for keys that are not Object.prototype property names). |
| Ussd.TallyHours | src/components/services/ussd/USSDAnalytics.tsx:68-72 | The `hourCounts` loop builds exactly the counter of the hours. |
| Ussd.EntryOrder | src/components/services/ussd/USSDAnalytics.tsx:63 | `Object.entries` order: integer-like keys ascending, then the others in insertion order. EntryOrderKeys states it lists exactly the inserted keys. |
| Ussd.EntryOrderKeys | src/components/services/ussd/USSDAnalytics.tsx:63 | `Object.entries` lists exactly the inserted keys. |
| Ussd.PathEntries | src/components/services/ussd/USSDAnalytics.tsx:63-66 | Each entry pairs a key with its count, in entry order. |
| Ussd.HourEntries | src/components/services/ussd/USSDAnalytics.tsx:74-75 | One entry per counted hour, in ascending hour order. Each entry carries its hour's count. |
| Ussd.Divisor | src/components/services/ussd/USSDAnalytics.tsx:50-53 | `totalSessions \|\| 1` is at least 1 and is the total when it is positive. |
| Ussd.Summary | src/components/services/ussd/USSDAnalytics.tsx:46-86 | The analytics of a successful read. UniqueUsersBounded, CompletionBounded, TopMenuPathsFacts and PeakHoursFacts state its fields. |
| Ussd.AnalyticsOf | src/components/services/ussd/USSDAnalytics.tsx:18-97 | An invalid range or a read error gives the all-zero summary. Otherwise totalSessions is the number of rows. |
| Ussd.Analyse | src/components/services/ussd/USSDAnalytics.tsx:18-97 | The query function with its two loops computes exactly `AnalyticsOf`. |
| Ussd.UniqueUsersBounded | src/components/services/ussd/USSDAnalytics.tsx:47-48 | uniqueUsers ≤ totalSessions. |
| Ussd.CompletionBounded | src/components/services/ussd/USSDAnalytics.tsx:50-53 | Completed sessions ≤ total. The completion rate is at most 100, and both rates divide by max(total, 1). |
| Ussd.CountAtMostLength | src/components/services/ussd/USSDAnalytics.tsx:52 | A filter count never exceeds the length. |
| Ussd.PathCountsBounded | src/components/services/ussd/USSDAnalytics.tsx:55-61 | The path counts sum to at most totalSessions, and the empty path is never counted. |
| Ussd.PathTallyIsOccurrences | src/components/services/ussd/USSDAnalytics.tsx:55-61 | A path's tally is the number of sessions that followed it. |
| Ussd.TopMenuPaths | src/components/services/ussd/USSDAnalytics.tsx:63-66 | The five busiest paths. TopMenuPathsOfTally, TopMenuPathsOfTallyMaximal, TopMenuPathsFacts and TopMenuPathsMaximal state it. |
| Ussd.TopMenuPathsOfTally | src/components/services/ussd/USSDAnalytics.tsx:63-66 | At most 5 paths, non-increasing by count, each with its own tally. |
| Ussd.TopMenuPathsOfTallyMaximal | src/components/services/ussd/USSDAnalytics.tsx:63-66 | A path left out has a count no larger than any listed one. |
| Ussd.TopMenuPathsFacts | src/components/services/ussd/USSDAnalytics.tsx:55-66 | topMenuPaths has at most 5 non-empty paths, non-increasing, each counted as often as sessions followed it. |
| Ussd.TopMenuPathsMaximal | src/components/services/ussd/USSDAnalytics.tsx:55-66 | A followed path left out was followed no more often than any listed path. |
| Ussd.HourEntriesDistinct | src/components/services/ussd/USSDAnalytics.tsx:74-75 | Each hour appears once among the entries. |
| Ussd.HourEntriesCover | src/components/services/ussd/USSDAnalytics.tsx:74-75 | Every counted hour has its entry, with its count. |
| Ussd.PeakHours | src/components/services/ussd/USSDAnalytics.tsx:74-77 | The six busiest hours. PeakHoursOfTally, PeakHoursCounted, PeakHoursOfTallyMaximal, PeakHoursFacts and PeakHoursMaximal state it. |
| Ussd.PeakHoursOfTally | src/components/services/ussd/USSDAnalytics.tsx:74-77 | At most 6 hours, busiest first, with no hour twice. |
| Ussd.PeakHoursCounted | src/components/services/ussd/USSDAnalytics.tsx:68-77 | Each peak hour is a counted hour and carries that hour's count. |
| Ussd.PeakHoursOfTallyMaximal | src/components/services/ussd/USSDAnalytics.tsx:74-77 | An hour left out has a count no larger than any listed hour's. |
| Ussd.HourTallyIsOccurrences | src/components/services/ussd/USSDAnalytics.tsx:68-72 | An hour's count is the number of sessions started in it. |
| Ussd.PeakHoursFacts | src/components/services/ussd/USSDAnalytics.tsx:68-77 | peakHours has at most 6 entries, busiest first, with no hour twice. Each entry's sessions is the number of sessions started in that hour. |
| Ussd.PeakHoursOccurrences | src/components/services/ussd/USSDAnalytics.tsx:68-77 | Each peak hour's sessions is the number of sessions started in that hour. |
| Ussd.PeakHoursMaximal | src/components/services/ussd/USSDAnalytics.tsx:68-77 | An hour with sessions that is left out of peakHours saw no more sessions than any listed hour. |
| Sidebar.FilterSection | src/components/client/ClientSidebar.tsx:21-49 | A section other than 'services' is unchanged. In 'services', an item is kept iff it is not activation-required, or loading is over and its id is activated. |
| Sidebar.FilterSidebarSections | src/components/client/ClientSidebar.tsx:21-49 | The same number of sections, position by position. |
| Sidebar.FilterKeepsOrder | src/components/client/ClientSidebar.tsx:37-47 | Filtering only removes items and keeps their order. |
| Sidebar.LoadingShowsUnrestricted | src/components/client/ClientSidebar.tsx:22-31 | While loading, only items that are not activation-required are shown. |
| Sidebar.LoadingIsSublistOfLoaded | src/components/client/ClientSidebar.tsx:21-49 | The loading result is a sub-list of the loaded result, for every set of activated types. |
| Sidebar.MoreActivatedShowsMore | src/components/client/ClientSidebar.tsx:37-47 | Activating more types never hides an item. |
| Sidebar.RenderedSections | src/components/client/ClientSidebar.tsx:69-76 | Exactly the non-empty sections are rendered. |
| Sidebar.EmptyServicesNotRendered | src/components/client/ClientSidebar.tsx:69-76 | A services section left with no items is not rendered. |
| ActivatedServices.CatalogMap | src/hooks/useMyActivatedServices.ts:50 | The lookup map holds every catalogue id, each under its own id. |
| ActivatedServices.ServiceOf | src/hooks/useMyActivatedServices.ts:54 | A missing service id, or one not in the catalogue, shows the 'Unknown Service' placeholder. |
| ActivatedServices.ToActivation | src/hooks/useMyActivatedServices.ts:53-68 | user_id and activated_by fall back to the owner, activated_at to created_at and service_id to ''. is_active is status == 'active'. |
| ActivatedServices.Activations | src/hooks/useMyActivatedServices.ts:53-69 | One activation per subscription, in order. |
| ActivatedServices.MyActivatedServices | src/hooks/useMyActivatedServices.ts:25-69 | Empty when no id resolves. A failed subscriptions read is passed on as its error. |
| ActivatedServices.EmptyCases | src/hooks/useMyActivatedServices.ts:25-40 | No owner, no active subscription, or no non-empty service id gives []. |
| ActivatedServices.OneActivationPerSubscription | src/hooks/useMyActivatedServices.ts:53-69 | The k-th activation is built from the k-th subscription, even when its service is not catalogued. |
| ActivatedServices.FetchedActivationsAreActive | src/hooks/useMyActivatedServices.ts:29-33 | The fetched subscriptions are active, so every activation is active. |
| ActivatedServices.CatalogEntryShown | src/hooks/useMyActivatedServices.ts:50-54 | A catalogued service is shown with its name and type. |
| ActivatedServices.CatalogMapLastWins | src/hooks/useMyActivatedServices.ts:50 | With repeated ids, `new Map` keeps the last entry. |
| ServiceActivation.RequestServiceActivation | src/hooks/useServiceActivation.ts:17-37 | Fails with 'User not authenticated' iff no id resolves. Otherwise a 'pending' request for the service, under that id. |
| ServiceActivation.RequestOwner | src/hooks/useServiceActivation.ts:19-25 | The owner is the client profile's id for a client-profile session, else the user's id. service_id and user_id are copied and status is 'pending'. |
| ServiceActivation.RequestDefaults | src/hooks/useServiceActivation.ts:18-30 | The justification and usage fall back when absent or empty. The priority falls back only when absent. |
| ApiCredentials.Normalise | src/hooks/useSecureApiCredentials.ts:34-37 | A null username becomes ''. Every other field is unchanged. |
| ApiCredentials.Credentials | src/hooks/useSecureApiCredentials.ts:24-38 | Fails iff the read fails, with its message. A null answer gives []. Otherwise the rows in order, each normalised. |
| ApiCredentials.CredentialsNormalised | src/hooks/useSecureApiCredentials.ts:34-37 | Every reported username is set, and normalising again changes nothing. |
| ApiCredentials.KeyMode | src/hooks/useSecureApiCredentials.ts:137 | 'live' iff the key name contains 'live', else 'test'. |
| ApiCredentials.ApiKey | src/hooks/useSecureApiCredentials.ts:137 | The key is the service name, '_', the mode, '_' and the suffix. |
| ApiCredentials.ApiKeyInjective | src/hooks/useSecureApiCredentials.ts:137 | For a given service and mode, different suffixes give different keys. |
| ApiCredentials.GenerateApiKey | src/hooks/useSecureApiCredentials.ts:119-160 | An unauthenticated caller fails before any insert, and an insert error is passed on. Otherwise the caller's row has the key, username = key name, is_active and expires_at, and the returned key is the stored one. |
| ApiCredentials.GenerateDefaults | src/hooks/useSecureApiCredentials.ts:121-148 | The service name defaults to 'mspace'. Permissions and rate limit never affect the result. |
| ApiCredentials.GetDecryptedCredential | src/hooks/useSecureApiCredentials.ts:113-116 | Always null. |
| ApiCredentials.GetApiUsage | src/hooks/useSecureApiCredentials.ts:190-198 | Always []. |
| AdminProfile.JsonResponse | supabase/functions/admin-profile-management/index.ts:177-180 | The given status, the CORS headers plus Content-Type, and the JSON body. |
| AdminProfile.ErrorResponse | supabase/functions/admin-profile-management/index.ts:78-81 | A JSON `{error}` body with the given status. |
| AdminProfile.InternalError | supabase/functions/admin-profile-management/index.ts:130-133 | 500 with `{error: 'Internal server error', details}`. |
| AdminProfile.ErrorMessage | supabase/functions/admin-profile-management/index.ts:129 | An Error's message, else 'Unknown error'. |
| AdminProfile.KeysOf | supabase/functions/admin-profile-management/index.ts:225 | `Object.keys` lists the property names in order. |
| AdminProfile.PropertyOf | supabase/functions/admin-profile-management/index.ts:193-195 | A property read finds a value iff the name is a key. |
| AdminProfile.Picked | supabase/functions/admin-profile-management/index.ts:192-197 | The row sent holds exactly the picked keys that are present, with their values. `JSON.stringify` drops the others. |
| AdminProfile.Spread | supabase/functions/admin-profile-management/index.ts:319 | `{...obj}` holds exactly its keys and values. |
| AdminProfile.KeyValues | supabase/functions/admin-profile-management/index.ts:225 | The key list as a JSON array of strings. |
| AdminProfile.AuditWrite | supabase/functions/admin-profile-management/index.ts:220-229 | An insert into audit_logs with user_id, action, resource, data and timestamp. |
| AdminProfile.Combined | supabase/functions/admin-profile-management/index.ts:170-175 | The merged keys are the profile's, the admin row's and the two nested settings. admin_security_settings and admin_preferences hold their rows, or null when absent, whatever the profile and admin rows carry under those keys. |
| AdminProfile.CombinedOverrides | supabase/functions/admin-profile-management/index.ts:170-175 | The admin row's value wins over the profile's for a shared key. |
| AdminProfile.GetAdminProfile | supabase/functions/admin-profile-management/index.ts:137-185 | Writes nothing. Fails iff the profile read fails, with 'Failed to get admin profile: …'. Otherwise 200 with the merged data. |
| AdminProfile.UpdateAdminProfile | supabase/functions/admin-profile-management/index.ts:187-239 | Succeeds iff the payload is present and both writes succeed. On success it writes one ADMIN_PROFILE_UPDATE audit record, last; on failure none. A missing payload, a failed profile update or a failed upsert fails with 'Failed to update admin profile: ' and that error's message. |
| AdminProfile.UpdateAdminAvatar | supabase/functions/admin-profile-management/index.ts:241-274 | Succeeds iff the payload is present and the upsert succeeds. On success it writes one ADMIN_AVATAR_UPDATE audit record, last. A missing payload or a failed upsert fails with 'Failed to update admin avatar: ' and that error's message. |
| AdminProfile.UpdateAdminSecurity | supabase/functions/admin-profile-management/index.ts:276-311 | Succeeds iff the payload is present and the upsert succeeds. On success it writes one ADMIN_SECURITY_UPDATE audit record for admin_security/id, last. A missing payload or a failed upsert fails with 'Failed to update admin security settings: ' and that error's message. |
| AdminProfile.PreferencesRowAsWritten | supabase/functions/admin-profile-management/index.ts:317-321 | As written, a user_id in the payload overrides the caller's id. |
| AdminProfile.PreferencesCanTargetAnotherUser | supabase/functions/admin-profile-management/index.ts:317-321 | As written, the payload `{user_id: other}` upserts another user's preferences. |
| AdminProfile.PreferencesRow | supabase/functions/admin-profile-management/index.ts:317-321 | Corrected: the payload's settings, but always under the caller's id. |
| AdminProfile.PreferencesRowAgrees | supabase/functions/admin-profile-management/index.ts:317-321 | The two agree when the payload has no user_id. |
| AdminProfile.UpdateAdminPreferences | supabase/functions/admin-profile-management/index.ts:313-345 | Always upserts first, as written: the row is filed under the payload's user_id when it carries one, else under the caller's. Succeeds iff the payload is present and the upsert succeeds. On success it writes one ADMIN_PREFERENCES_UPDATE audit record, last. A failed upsert, or else a missing payload, fails with 'Failed to update admin preferences: ' and that error's message. |
| AdminProfile.PreferencesEndpointTargetsPayloadUser | supabase/functions/admin-profile-management/index.ts:313-321 | Through the whole endpoint, an admin's payload `{user_id: other}` upserts preferences filed under the other user. |
| AdminProfile.AuditLogFor | supabase/functions/admin-profile-management/index.ts:349-360 | At most 50 entries, newest first. |
| AdminProfile.AuditLogSelection | supabase/functions/admin-profile-management/index.ts:349-360 | Only the caller's four ADMIN_* actions are reported. One left out is no newer than any reported entry, and none is left out when there are at most 50. |
| AdminProfile.GetAuditLog | supabase/functions/admin-profile-management/index.ts:347-371 | Writes nothing and fails iff the read fails. Otherwise 200. |
| AdminProfile.Dispatch | supabase/functions/admin-profile-management/index.ts:101-125 | Any action other than the six gives 400 'Invalid action' with no writes. |
| AdminProfile.Serve | supabase/functions/admin-profile-management/index.ts:55-135 | OPTIONS gives 'ok' with CORS headers. No user gives 401. A missing profile or a non-admin role gives 403. A body that fails to parse gives 500. |
| AdminProfile.GateIgnoresBody | supabase/functions/admin-profile-management/index.ts:56-98 | A request refused at the gate is refused, with no writes, whatever its body and backend. |
| AdminProfile.ResponsesCarryCors | supabase/functions/admin-profile-management/index.ts:55-135 | Every response carries the CORS headers. Its status is 200, 400, 401, 403 or 500. |
| AdminProfile.ServeParsed | supabase/functions/admin-profile-management/index.ts:100-134 | For an admin with a parsed body, the endpoint performs the handler's writes and returns its response, or a 500 with its error. |
| AdminProfile.DispatchResponse | supabase/functions/admin-profile-management/index.ts:101-125 | Every answer a handler returns has the JSON headers and status 200 or 400. |
| AdminProfile.InvalidActionRejected | supabase/functions/admin-profile-management/index.ts:120-124 | Only the six actions are dispatched. |
| AdminProfile.AuditWrites | supabase/functions/admin-profile-management/index.ts:220-335 | The audit writes among a handler's writes. |
| AdminProfile.AuditedOnce | supabase/functions/admin-profile-management/index.ts:220-335 | A successful handler's only audit write is its last write. A failed one has none. |
| AdminProfile.DispatchAudited | supabase/functions/admin-profile-management/index.ts:187-345 | A successful update action answers 200, and its last write inserts an audit record for the caller under its own action name and resource. |
| AdminProfile.UpdateAudited | supabase/functions/admin-profile-management/index.ts:187-239 | The profile update, reached through the dispatcher, writes its ADMIN_PROFILE_UPDATE record for admin_profile/<caller> last on success and none on failure. |
| AdminProfile.AvatarAudited | supabase/functions/admin-profile-management/index.ts:241-274 | The avatar update, reached through the dispatcher, writes its ADMIN_AVATAR_UPDATE record for admin_profile/<caller> last on success and none on failure. |
| AdminProfile.SecurityAudited | supabase/functions/admin-profile-management/index.ts:276-311 | The security update, reached through the dispatcher, writes its ADMIN_SECURITY_UPDATE record for admin_security/<caller> last on success and none on failure. |
| AdminProfile.PreferencesAudited | supabase/functions/admin-profile-management/index.ts:313-345 | The preferences update, reached through the dispatcher, writes its ADMIN_PREFERENCES_UPDATE record for admin_preferences/<caller> last on success and none on failure. |
| AdminProfile.OneAuditRecordPerUpdate | supabase/functions/admin-profile-management/index.ts:220-335 | Each successful update ends with its one audit record, for the caller, with its own action and resource. A failed update writes none, and the two reads write nothing. |
| AdminProfile.HandlerFailureIs500 | supabase/functions/admin-profile-management/index.ts:127-134 | For the get handler, a failed profile read gives 500 with details 'Failed to get admin profile: ' and the error's message, or 'Unknown error'. |
| AdminProfile.FailingHandlerIs500 | supabase/functions/admin-profile-management/index.ts:101-134 | Whichever of the six handlers fails, the answer is 500 with the handler's message, which is 'Failed to <its task>: ' followed by the caught error's message. |
| AdminProfile.DispatchFailureNamed | supabase/functions/admin-profile-management/index.ts:137-371 | Each of the six handlers fails only with 'Failed to <its task>: <message>'. |
| AdminProfile.GetFailureNamed | supabase/functions/admin-profile-management/index.ts:137-185 | A failed get says 'Failed to get admin profile: ' and its error's message. |
| AdminProfile.UpdateFailureNamed | supabase/functions/admin-profile-management/index.ts:187-239 | A failed profile update says 'Failed to update admin profile: ' and its error's message. |
| AdminProfile.AvatarFailureNamed | supabase/functions/admin-profile-management/index.ts:241-274 | A failed avatar update says 'Failed to update admin avatar: ' and its error's message. |
| AdminProfile.SecurityFailureNamed | supabase/functions/admin-profile-management/index.ts:276-311 | A failed security update says 'Failed to update admin security settings: ' and its error's message. |
| AdminProfile.PreferencesFailureNamed | supabase/functions/admin-profile-management/index.ts:313-345 | A failed preferences update says 'Failed to update admin preferences: ' and its error's message. |
| AdminProfile.AuditLogFailureNamed | supabase/functions/admin-profile-management/index.ts:347-371 | A failed audit-log read says 'Failed to get admin profile audit log: ' and its error's message. |

## Left out

- Rendering, toasts, navigation (`window.location.href`), console logging and React Query caching/invalidation are user-interface plumbing. Only the sidebar's which-sections-render rule is modelled.
- Supabase queries, RPCs and inserts are foreign calls. Their answers are inputs, their writes are outputs or fields, and their row order (`order('created_at', …)`) is the database's.
- Timestamps and ISO strings written by the hooks are not modelled. The clock is an integer input.
- The `Promise.race` timeouts and the 100 ms deferred role fetch are modelled only as outcomes: a rejected read, and a pending fetch that completes in any order.
- Floating-point results (delivery rate, average session duration, completion rate) are exact quotients. `toFixed` and `Intl.NumberFormat` formatting are not modelled.
- `Date.getHours` depends on the local time zone, so each USSD session's hour is an input, constrained to 0 to 23 as `getHours` returns it.
- The API key's random suffix (`Math.random`) is a parameter. CSRF tokens, `validateSession`, `validateCSRFToken`, `detectSuspiciousActivity`, `getInstance` and the security manager's own `logSecurityEvent` depend on browser globals or remote writes and are not modelled. The login handler's events, sent through `useLoginSecurity`, are modelled with their details objects; an instant in them is a number of milliseconds rather than an ISO string.
- JSON parsing of stored and request bodies is not modelled. A body is already parsed or malformed, and a stored entry is parsable, malformed or empty.
- Admin payloads that are JSON values other than objects, arrays or null are not modelled.
- JSON object key order is not modelled: rows are maps.
- `toLowerCase` is ASCII lowering. This is exact for the CSV header switch and an approximation for the contact search outside ASCII.
- Password length counts code points, not UTF-16 code units.
- The update and delete mutations of contacts and campaigns, campaign `metadata`, and `saveCredential`, `updateCredential`, `deleteCredential` and `toggleApiKey` of the credentials hook are plain remote writes with no decision logic.
- The M-Pesa query's error path (React Query keeps `[]`) is not modelled apart from the range start's error.
- The USSD query's `application_id` filter is the database's.
- src/App.tsx, the health-check function, the survey and WhatsApp stubs, useAllApiCredentials.ts, ApiCredentialsTab.tsx, MetricsGrid.tsx and AuthContext.tsx are not part of this model: they are routing, UI or wiring without decision logic of their own.
- Ussd.TallyPaths: a path key that names an Object.prototype member is counted like any other key. In the source, `pathCounts[k] || 0` reads the inherited member for such a key. For "toString", "constructor" or "valueOf" the count becomes a string, and for "__proto__" the write is ignored. Either way the later descending sort compares NaN. Counters.Bump has the same limit.
- ContactsManager.ApplyColumn: a CSV header named "__proto__" with a non-empty value is stored as a custom field. In the source, `contact.custom_fields[header] = value` on a plain `{}` (ContactsManager.tsx:156) sets that object's prototype instead, so no field is stored. ContactsManager.CustomFieldsCollected has the same limit.
- M-Pesa amounts are integers. The source sums the `amount` column as JavaScript numbers, so fractional shillings and floating-point rounding of the total are not modelled.
- Contacts.Stamp: contact `custom_fields` and `metadata` are JSON objects carried as maps from string to string, so nested or non-string values are not modelled. The insert path from the CSV import goes through `useContactMutations`, which is not part of this model, so ParseCsv's rows are not linked to Contacts.StampAll.
- The edge function's Supabase clients are built from environment variables (`SUPABASE_URL` and the keys, `''` when unset). The model assumes both clients are configured. A `createClient` that throws falls into the catch at supabase/functions/admin-profile-management/index.ts:127-134 and answers 500, and that path is not modelled.
- Mpesa.Stats: states the card count and its bounds; the amount sum is stated through Mpesa.StatsOfAppended rather than as a closed formula.
- Ussd.AnalyticsOf: states the error cases and the session count; the remaining fields are stated by the Ussd lemmas about `Summary`.
- AdminProfile.GetAuditLog: states the status and the error case; which rows it reports is stated by AdminProfile.AuditLogSelection.

## Findings

| source | as written | input that shows it | evidently intended | confidence | as-written member | corrected member |
|---|---|---|---|---|---|---|
| src/lib/enhanced-security.ts:94-100 | One pass of each replacement; removing an inner `javascript:` joins its neighbours into a new one | "jjavascript:avascript:" sanitises to "javascript:" | No scheme survives sanitising | high; not executed | Sanitizer.SanitizeLeavesJavascriptScheme | Sanitizer.SanitizeFullyRemovesEveryPattern |
| src/components/contacts/ContactsManager.tsx:455 | The header box compares the selection's size with the visible list's size | select contact a, then search so only contact b (another id) is visible: the header shows checked | Checked when every visible row is selected | high; not executed | ContactsManager.HeaderCheckedWithoutSelection | ContactsManager.AllVisibleSelectedMeans |
| src/hooks/useContacts.ts:170-176 | `mergeContacts` deletes every listed duplicate id | primaryId listed in duplicateIds: the primary row is deleted | The primary row is never deleted | medium; not executed | Contacts.MergeCanDeletePrimary | Contacts.MergeContacts |
| supabase/functions/admin-profile-management/index.ts:317-321 | `{ user_id: userId, ...preferences }` lets the payload's user_id win | preferences `{ "user_id": "<another user>" }` upserts that user's preferences | The row is always the caller's | high; not executed | AdminProfile.PreferencesEndpointTargetsPayloadUser | AdminProfile.PreferencesRow |
