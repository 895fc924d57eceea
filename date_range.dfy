/** The "last N days" ranges of the transaction monitor and the USSD
    analytics: `parseInt(range.replace('d', ''))` days before the clock
    reading, as the instant a query's `created_at` bound is built from. */
module DateRange {
  import opened Common

  const MillisPerDay := 24 * 60 * 60 * 1000

  /** The largest magnitude a JavaScript `Date` holds (section 21.4.1.1 of ECMA-262, "Time Values and Time Range"). */
  const MaxTimeValue := 8_640_000_000_000_000

  /** `String.prototype.replace` with a one-character pattern: the first match only. */
  function ReplaceFirst(s: string, c: char): (r: string)
    ensures c !in s ==> r == s
    ensures c in s ==> |r| == |s| - 1
  {
    if |s| == 0 then ""
    else if s[0] == c then s[1..]
    else [s[0]] + ReplaceFirst(s[1..], c)
  }

  /** The query's lower bound on `created_at`. `parseInt` yielding NaN, or a
      time out of a `Date`'s range, makes `toISOString` throw. */
  function RangeStart(now: int, dateRange: string): (r: Result<int>)
    ensures ParseInt(ReplaceFirst(dateRange, 'd')).None? ==> r.Err?
    ensures r.Ok? ==> -MaxTimeValue <= r.value <= MaxTimeValue
    ensures r.Ok? ==> now - r.value == ParseInt(ReplaceFirst(dateRange, 'd')).value * MillisPerDay
  {
    match ParseInt(ReplaceFirst(dateRange, 'd'))
    case None => Err("Invalid time value")
    case Some(days) =>
      var start := now - days * MillisPerDay;
      if -MaxTimeValue <= start <= MaxTimeValue then Ok(start) else Err("Invalid time value")
  }

  lemma RemoveTrailingD(n: nat)
    ensures ReplaceFirst(NatToString(n) + "d", 'd') == NatToString(n)
  {
    var s := NatToString(n);
    ReplaceFirstSkipsDigits(s, "d");
    assert "d"[1..] == "";
    assert s + "" == s;
  }

  lemma {:induction false} ReplaceFirstSkipsDigits(s: string, rest: string)
    requires forall i :: 0 <= i < |s| ==> IsAsciiDigit(s[i])
    requires |rest| > 0 && rest[0] == 'd'
    ensures ReplaceFirst(s + rest, 'd') == s + rest[1..]
    decreases |s|
  {
    if |s| > 0 {
      assert (s + rest)[1..] == s[1..] + rest;
      ReplaceFirstSkipsDigits(s[1..], rest);
      assert s + rest[1..] == [s[0]] + (s[1..] + rest[1..]);
    } else {
      assert s + rest == rest;
    }
  }

  /** A range 'Nd' starts exactly N days before now, whenever that instant
      is one a `Date` can hold. */
  lemma RangeOfDays(now: int, n: nat)
    requires -MaxTimeValue <= now - n * MillisPerDay <= MaxTimeValue
    ensures RangeStart(now, NatToString(n) + "d") == Ok(now - n * MillisPerDay)
  {
    RemoveTrailingD(n);
    ParseIntOfNatToString(n);
  }

}
