/** The security manager (src/lib/enhanced-security.ts): a fixed-window
    rate limiter over an in-memory map, the cache reset, and the password
    policy. The clock is the parameter `now`, in milliseconds. The tag
    sanitiser and the base64 wrapper are the modules Sanitizer and Base64. */
module EnhancedSecurity {
  import opened Common

  const DefaultLimit := 100
  const DefaultWindowMs := 60000

  /** One identifier's window: successes so far and the window's last instant. */
  datatype RateEntry = RateEntry(count: int, resetTime: int)

  /** The `rate_limit_exceeded` event a rejected call logs. */
  datatype RateLimitEvent = RateLimitEvent(identifier: string, limit: int, windowMs: int)

  datatype RateDecision = RateDecision(allowed: bool, cache: map<string, RateEntry>, exceeded: bool)

  const RateKeyPrefix := "rate_limit_"

  function RateKey(identifier: string): (k: string)
    ensures |k| == |RateKeyPrefix| + |identifier|
    ensures k[..|RateKeyPrefix|] == RateKeyPrefix && k[|RateKeyPrefix|..] == identifier
  {
    RateKeyPrefix + identifier
  }

  /** Different identifiers never share a counter. */
  lemma RateKeyInjective(a: string, b: string)
    requires RateKey(a) == RateKey(b)
    ensures a == b
  {
    assert a == RateKey(a)[|RateKeyPrefix|..];
  }

  /** One `checkServerRateLimit` call. */
  function RateStep(cache: map<string, RateEntry>, identifier: string, limit: int, windowMs: int, now: int): (d: RateDecision)
    ensures d.allowed != d.exceeded
    ensures d.cache.Keys == cache.Keys + {RateKey(identifier)}
    ensures forall k :: k in cache && k != RateKey(identifier) ==> d.cache[k] == cache[k]
    ensures d.exceeded ==> d.cache == cache
  {
    var key := RateKey(identifier);
    if key !in cache || now > cache[key].resetTime then
      RateDecision(true, cache[key := RateEntry(1, now + windowMs)], false)
    else if cache[key].count >= limit then
      RateDecision(false, cache, true)
    else
      RateDecision(true, cache[key := cache[key].(count := cache[key].count + 1)], false)
  }

  class SecurityManager {
    var securityCache: map<string, string>
    var rateLimitCache: map<string, RateEntry>
    var loggedEvents: seq<RateLimitEvent>

    constructor()
      ensures securityCache == map[] && rateLimitCache == map[] && loggedEvents == []
    {
      securityCache := map[];
      rateLimitCache := map[];
      loggedEvents := [];
    }

    method CheckServerRateLimit(identifier: string, limit: int, windowMs: int, now: int) returns (allowed: bool)
      modifies this
      ensures var d := RateStep(old(rateLimitCache), identifier, limit, windowMs, now);
        && allowed == d.allowed
        && rateLimitCache == d.cache
        && loggedEvents == old(loggedEvents) + (if d.exceeded then [RateLimitEvent(identifier, limit, windowMs)] else [])
        && securityCache == old(securityCache)
    {
      var key := RateKey(identifier);
      if key !in rateLimitCache || now > rateLimitCache[key].resetTime {
        rateLimitCache := rateLimitCache[key := RateEntry(1, now + windowMs)];
        return true;
      }
      var current := rateLimitCache[key];
      if current.count >= limit {
        loggedEvents := loggedEvents + [RateLimitEvent(identifier, limit, windowMs)];
        return false;
      }
      rateLimitCache := rateLimitCache[key := current.(count := current.count + 1)];
      return true;
    }

    /** Empties the general cache and keeps the rate-limit counters. */
    method ClearSecurityCaches()
      modifies this
      ensures securityCache == map[]
      ensures rateLimitCache == old(rateLimitCache) && loggedEvents == old(loggedEvents)
    {
      securityCache := map[];
    }
  }

  /** The first call for an identifier, or one strictly after its window
      has ended, opens a new window of `windowMs` and succeeds. */
  lemma RateWindowOpens(cache: map<string, RateEntry>, identifier: string, limit: int, windowMs: int, now: int)
    requires RateKey(identifier) !in cache || now > cache[RateKey(identifier)].resetTime
    ensures var d := RateStep(cache, identifier, limit, windowMs, now);
      d.allowed && !d.exceeded && d.cache == cache[RateKey(identifier) := RateEntry(1, now + windowMs)]
  {
  }

  /** Inside a window (up to and including its reset time) a call fails
      exactly when the count has reached the limit, and then changes
      nothing; otherwise it counts one more success. */
  lemma RateWithinWindow(cache: map<string, RateEntry>, identifier: string, limit: int, windowMs: int, now: int)
    requires RateKey(identifier) in cache && now <= cache[RateKey(identifier)].resetTime
    ensures var d := RateStep(cache, identifier, limit, windowMs, now);
      var e := cache[RateKey(identifier)];
      && (d.allowed <==> e.count < limit)
      && (d.exceeded <==> !d.allowed)
      && (!d.allowed ==> d.cache == cache)
      && (d.allowed ==> d.cache == cache[RateKey(identifier) := RateEntry(e.count + 1, e.resetTime)])
  {
  }

  /** A call for one identifier leaves every other identifier's counter alone. */
  lemma RateKeysIndependent(cache: map<string, RateEntry>, identifier: string, other: string,
                            limit: int, windowMs: int, now: int)
    requires other != identifier
    ensures var d := RateStep(cache, identifier, limit, windowMs, now);
      && (RateKey(other) in d.cache <==> RateKey(other) in cache)
      && (RateKey(other) in cache ==> d.cache[RateKey(other)] == cache[RateKey(other)])
  {
    if RateKey(other) == RateKey(identifier) {
      RateKeyInjective(other, identifier);
    }
  }

  /** The outcomes of consecutive calls for one identifier. */
  function RateCalls(cache: map<string, RateEntry>, identifier: string, limit: int, windowMs: int, times: seq<int>): (r: seq<bool>)
    ensures |r| == |times|
    decreases |times|
  {
    if |times| == 0 then []
    else
      var d := RateStep(cache, identifier, limit, windowMs, times[0]);
      [d.allowed] + RateCalls(d.cache, identifier, limit, windowMs, times[1..])
  }

  /** Inside an open window with `c` successes so far, the i-th further call
      succeeds exactly when `c + i` is below the limit. */
  lemma {:induction false} RateCallsInWindow(cache: map<string, RateEntry>, identifier: string, limit: int, windowMs: int,
                                             times: seq<int>, c: int)
    requires RateKey(identifier) in cache && cache[RateKey(identifier)].count == c
    requires forall i :: 0 <= i < |times| ==> times[i] <= cache[RateKey(identifier)].resetTime
    ensures forall i :: 0 <= i < |times| ==> RateCalls(cache, identifier, limit, windowMs, times)[i] == (c + i < limit)
    decreases |times|
  {
    if |times| > 0 {
      var key := RateKey(identifier);
      var d := RateStep(cache, identifier, limit, windowMs, times[0]);
      var r := RateCalls(cache, identifier, limit, windowMs, times);
      var rest := RateCalls(d.cache, identifier, limit, windowMs, times[1..]);
      assert r == [d.allowed] + rest;
      forall i | 0 <= i < |times[1..]| ensures times[1..][i] <= d.cache[key].resetTime {
        assert times[1..][i] == times[i + 1];
      }
      if c < limit {
        RateCallsInWindow(d.cache, identifier, limit, windowMs, times[1..], c + 1);
      } else {
        RateCallsInWindow(d.cache, identifier, limit, windowMs, times[1..], c);
      }
      forall i | 1 <= i < |times| ensures r[i] == (c + i < limit) {
        assert r[i] == rest[i - 1];
      }
    }
  }

  function Max(a: int, b: int): int { if a >= b then a else b }

  /** A window admits exactly its first max(limit, 1) calls: the call that
      opens it and then every call while the count is below the limit. */
  lemma WindowAdmitsFirstCalls(cache: map<string, RateEntry>, identifier: string, limit: int, windowMs: int,
                               start: int, times: seq<int>)
    requires RateKey(identifier) !in cache || start > cache[RateKey(identifier)].resetTime
    requires forall i :: 0 <= i < |times| ==> times[i] <= start + windowMs
    ensures var r := RateCalls(cache, identifier, limit, windowMs, [start] + times);
      forall i :: 0 <= i < |r| ==> r[i] == (i < Max(limit, 1))
  {
    var all := [start] + times;
    var d := RateStep(cache, identifier, limit, windowMs, start);
    assert all[1..] == times;
    RateCallsInWindow(d.cache, identifier, limit, windowMs, times, 1);
    var r := RateCalls(cache, identifier, limit, windowMs, all);
    forall i | 1 <= i < |r| ensures r[i] == RateCalls(d.cache, identifier, limit, windowMs, times)[i - 1] {
    }
  }

  /** With the default arguments (100 calls per 60000 ms), a window opened
      at `start` admits its first 100 calls up to `start + 60000` and refuses
      every later one. */
  lemma DefaultWindowAdmitsHundred(cache: map<string, RateEntry>, identifier: string, start: int, times: seq<int>)
    requires RateKey(identifier) !in cache || start > cache[RateKey(identifier)].resetTime
    requires forall i :: 0 <= i < |times| ==> times[i] <= start + DefaultWindowMs
    ensures var r := RateCalls(cache, identifier, DefaultLimit, DefaultWindowMs, [start] + times);
      forall i :: 0 <= i < |r| ==> (r[i] <==> i < 100)
  {
    WindowAdmitsFirstCalls(cache, identifier, DefaultLimit, DefaultWindowMs, start, times);
  }

  /** With a limit of 3 per 1000 ms: three calls pass, the fourth and a call
      at the reset instant fail, and the first call after it passes. */
  lemma RateLimitExample(identifier: string)
    ensures RateCalls(map[], identifier, 3, 1000, [0, 10, 20, 30, 1000, 1001]) == [true, true, true, false, false, true]
  {
    var k := RateKey(identifier);
    var c1 := map[k := RateEntry(1, 1000)];
    var c2 := c1[k := RateEntry(2, 1000)];
    var c3 := c2[k := RateEntry(3, 1000)];
    var c6 := c3[k := RateEntry(1, 2001)];
    assert RateStep(map[], identifier, 3, 1000, 0) == RateDecision(true, c1, false);
    assert RateStep(c1, identifier, 3, 1000, 10) == RateDecision(true, c2, false);
    assert RateStep(c2, identifier, 3, 1000, 20) == RateDecision(true, c3, false);
    assert RateStep(c3, identifier, 3, 1000, 30) == RateDecision(false, c3, true);
    assert RateStep(c3, identifier, 3, 1000, 1000) == RateDecision(false, c3, true);
    assert RateStep(c3, identifier, 3, 1000, 1001) == RateDecision(true, c6, false);
    assert [0, 10, 20, 30, 1000, 1001][1..] == [10, 20, 30, 1000, 1001];
    assert [10, 20, 30, 1000, 1001][1..] == [20, 30, 1000, 1001];
    assert [20, 30, 1000, 1001][1..] == [30, 1000, 1001];
    assert [30, 1000, 1001][1..] == [1000, 1001];
    assert [1000, 1001][1..] == [1001];
  }

  // ----- Password policy -----

  datatype PasswordRule = MinLength | Uppercase | Lowercase | Digit | Special

  /** The position of a rule in checking order. */
  function RuleIndex(rule: PasswordRule): nat {
    match rule
    case MinLength => 0
    case Uppercase => 1
    case Lowercase => 2
    case Digit => 3
    case Special => 4
  }

  /** The characters of the class `[!@#$%^&*(),.?":{}|<>]`. */
  const SpecialChars := "!@#$%^&*(),.?\":{}|<>"

  predicate IsSpecialChar(c: char) { c in SpecialChars }

  predicate HasUpper(p: string) { exists i :: 0 <= i < |p| && IsAsciiUpper(p[i]) }
  predicate HasLower(p: string) { exists i :: 0 <= i < |p| && IsAsciiLower(p[i]) }
  predicate HasDigit(p: string) { exists i :: 0 <= i < |p| && IsAsciiDigit(p[i]) }
  predicate HasSpecial(p: string) { exists i :: 0 <= i < |p| && IsSpecialChar(p[i]) }

  predicate Satisfies(p: string, rule: PasswordRule) {
    match rule
    case MinLength => |p| >= 8
    case Uppercase => HasUpper(p)
    case Lowercase => HasLower(p)
    case Digit => HasDigit(p)
    case Special => HasSpecial(p)
  }

  function RuleMessage(rule: PasswordRule): string {
    match rule
    case MinLength => "Password must be at least 8 characters long"
    case Uppercase => "Password must contain at least one uppercase letter"
    case Lowercase => "Password must contain at least one lowercase letter"
    case Digit => "Password must contain at least one number"
    case Special => "Password must contain at least one special character"
  }

  /** One `if (!test) errors.push(...)` step: the rule, when its test failed. */
  function Check(holds: bool, rule: PasswordRule): seq<PasswordRule> {
    if holds then [] else [rule]
  }

  /** The rules a password breaks, in checking order. */
  function FailedRules(p: string): (r: seq<PasswordRule>)
    ensures |r| <= 5
    ensures forall rule :: rule in r <==> !Satisfies(p, rule)
    ensures forall i, j :: 0 <= i < j < |r| ==> RuleIndex(r[i]) < RuleIndex(r[j])
  {
    var a, b, c, d, e := Satisfies(p, MinLength), Satisfies(p, Uppercase), Satisfies(p, Lowercase),
      Satisfies(p, Digit), Satisfies(p, Special);
    var r := Checks(a, b, c, d, e);
    ChecksInOrder(a, b, c, d, e);
    ChecksListFailures(a, b, c, d, e);
    assert forall rule :: rule in r <==> !Satisfies(p, rule) by {
      forall rule ensures rule in r <==> !Satisfies(p, rule) {
        RuleCases(rule);
      }
    }
    r
  }

  /** The five rules are all the rules there are. */
  lemma RuleCases(rule: PasswordRule)
    ensures rule == MinLength || rule == Uppercase || rule == Lowercase || rule == Digit || rule == Special
  {
  }

  predicate InCheckingOrder(r: seq<PasswordRule>) {
    forall i, j :: 0 <= i < j < |r| ==> RuleIndex(r[i]) < RuleIndex(r[j])
  }

  function Checks(a: bool, b: bool, c: bool, d: bool, e: bool): seq<PasswordRule> {
    Check(a, MinLength) + Check(b, Uppercase) + Check(c, Lowercase) + Check(d, Digit) + Check(e, Special)
  }

  /** The five checks list the failed rules in checking order. */
  lemma ChecksInOrder(a: bool, b: bool, c: bool, d: bool, e: bool)
    ensures |Checks(a, b, c, d, e)| <= 5 && InCheckingOrder(Checks(a, b, c, d, e))
  {
    var r1 := Check(a, MinLength);
    var r2 := r1 + Check(b, Uppercase);
    var r3 := r2 + Check(c, Lowercase);
    var r4 := r3 + Check(d, Digit);
    CheckAppendedInOrder(r1, b, Uppercase);
    CheckAppendedInOrder(r2, c, Lowercase);
    CheckAppendedInOrder(r3, d, Digit);
    CheckAppendedInOrder(r4, e, Special);
  }

  /** The five checks list each rule exactly when its test failed. */
  lemma ChecksListFailures(a: bool, b: bool, c: bool, d: bool, e: bool)
    ensures var r := Checks(a, b, c, d, e);
      (MinLength in r <==> !a) && (Uppercase in r <==> !b) && (Lowercase in r <==> !c)
      && (Digit in r <==> !d) && (Special in r <==> !e)
  {
    var r1 := Check(a, MinLength);
    var r2 := r1 + Check(b, Uppercase);
    var r3 := r2 + Check(c, Lowercase);
    var r4 := r3 + Check(d, Digit);
    CheckAppendedMembers(r1, b, Uppercase);
    CheckAppendedMembers(r2, c, Lowercase);
    CheckAppendedMembers(r3, d, Digit);
    CheckAppendedMembers(r4, e, Special);
  }

  /** Checking a later rule after the earlier ones keeps the list in
      checking order. */
  lemma CheckAppendedInOrder(r: seq<PasswordRule>, holds: bool, x: PasswordRule)
    requires InCheckingOrder(r)
    requires forall i :: 0 <= i < |r| ==> RuleIndex(r[i]) < RuleIndex(x)
    ensures InCheckingOrder(r + Check(holds, x))
    ensures forall i :: 0 <= i < |r + Check(holds, x)| ==> RuleIndex((r + Check(holds, x))[i]) <= RuleIndex(x)
    ensures |r + Check(holds, x)| <= |r| + 1
  {
  }

  /** A check adds its rule exactly when its test failed. */
  lemma CheckAppendedMembers(r: seq<PasswordRule>, holds: bool, x: PasswordRule)
    ensures forall rule :: rule in r + Check(holds, x) <==> rule in r || (rule == x && !holds)
  {
  }

  datatype PolicyResult = PolicyResult(isValid: bool, errors: seq<string>)

  /** `enforcePasswordPolicy`: one message per broken rule, in order; valid
      exactly when there is none. */
  function EnforcePasswordPolicy(p: string): (r: PolicyResult)
    ensures |r.errors| == |FailedRules(p)| <= 5
    ensures forall i :: 0 <= i < |r.errors| ==> r.errors[i] == RuleMessage(FailedRules(p)[i])
    ensures r.isValid <==> |r.errors| == 0
    ensures r.isValid <==> forall rule :: Satisfies(p, rule)
  {
    var failed := FailedRules(p);
    var errors := seq(|failed|, i requires 0 <= i < |failed| => RuleMessage(failed[i]));
    assert |failed| > 0 ==> !Satisfies(p, failed[0]);
    PolicyResult(|errors| == 0, errors)
  }

  /** "Ab1!" breaks only the length rule. */
  lemma ShortPasswordExample()
    ensures EnforcePasswordPolicy("Ab1!") == PolicyResult(false, [RuleMessage(MinLength)])
  {
    var p := "Ab1!";
    assert IsAsciiUpper(p[0]) && IsAsciiLower(p[1]) && IsAsciiDigit(p[2]) && IsSpecialChar(p[3]);
    assert FailedRules(p) == [MinLength];
  }

  /** "password" breaks the uppercase, digit and special-character rules. */
  lemma LowercaseWordExample()
    ensures EnforcePasswordPolicy("password").errors
            == [RuleMessage(Uppercase), RuleMessage(Digit), RuleMessage(Special)]
  {
    var p := "password";
    assert IsAsciiLower(p[0]);
    assert forall i :: 0 <= i < |p| ==> IsAsciiLower(p[i]);
    LowercaseOnlyBreaks(p);
    assert FailedRules(p) == [Uppercase, Digit, Special];
  }

  /** "Str0ng!Pass" meets every rule. */
  lemma StrongPasswordExample()
    ensures EnforcePasswordPolicy("Str0ng!Pass") == PolicyResult(true, [])
  {
    var p := "Str0ng!Pass";
    assert IsAsciiUpper(p[0]) && IsAsciiLower(p[1]) && IsAsciiDigit(p[3]) && IsSpecialChar(p[6]);
    assert FailedRules(p) == [];
  }

  /** A password of lower-case letters only has no upper-case letter, no
      digit and no special character. */
  lemma LowercaseOnlyBreaks(p: string)
    requires forall i :: 0 <= i < |p| ==> IsAsciiLower(p[i])
    ensures !Satisfies(p, Uppercase) && !Satisfies(p, Digit) && !Satisfies(p, Special)
  {
    forall i | 0 <= i < |p| ensures !IsSpecialChar(p[i]) {
      assert IsAsciiLower(p[i]);
    }
  }
}
