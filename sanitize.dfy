/** `sanitizeInput` (src/lib/enhanced-security.ts): four global regular-
    expression replacements by the empty string, applied in turn:
    `<script[^>]*>.*?<\/script>` (case-insensitive), `<[^>]*>`,
    `javascript:` (case-insensitive) and `on\w+\s*=` (case-insensitive).

    Each pattern is matched as JavaScript's engine does without the `u`
    flag: case-insensitivity only pairs ASCII letters here, `.` stops at
    line terminators, `\w` is `[A-Za-z0-9_]`, and a global replacement scans
    left to right, resuming after each match. */
module Sanitizer {
  import opened Common

  datatype Pattern = ScriptBlock | Tag | JavascriptScheme | EventHandler

  predicate IsLineTerminator(c: char) {
    c == '\n' || c == '\r' || c == '\U{2028}' || c == '\U{2029}'
  }

  /** `s` starts with the lower-case ASCII literal `lit`, ignoring ASCII case. */
  predicate StartsWithCaseless(s: string, lit: string) {
    |s| >= |lit| && Lower(s[..|lit|]) == lit
  }

  /** The first index at or after `from` holding `c`. */
  function IndexOfFrom(s: string, c: char, from: nat): (r: Option<nat>)
    requires from <= |s|
    ensures r.Some? ==> from <= r.value < |s| && s[r.value] == c
    ensures r.Some? ==> forall i :: from <= i < r.value ==> s[i] != c
    ensures r.None? ==> forall i :: from <= i < |s| ==> s[i] != c
    decreases |s| - from
  {
    if from == |s| then None
    else if s[from] == c then Some(from)
    else IndexOfFrom(s, c, from + 1)
  }

  /** The lazy `.*?` before `</script>`: the first position at or after `k`
      where the closing tag starts, provided no line terminator lies between. */
  function LazyClose(s: string, k: nat): (r: Option<nat>)
    requires k <= |s|
    ensures r.Some? ==> k <= r.value && r.value + 9 <= |s|
    decreases |s| - k
  {
    if StartsWithCaseless(s[k..], "</script>") then Some(k)
    else if k < |s| && !IsLineTerminator(s[k]) then LazyClose(s, k + 1)
    else None
  }

  /** The end of the run of characters satisfying `IsWordChar` (or, with
      `space`, `IsJsWhitespace`) that starts at `k`. */
  function RunEnd(s: string, k: nat, space: bool): (r: nat)
    requires k <= |s|
    ensures k <= r <= |s|
    ensures forall i :: k <= i < r ==> if space then IsJsWhitespace(s[i]) else IsWordChar(s[i])
    ensures r < |s| ==> !(if space then IsJsWhitespace(s[r]) else IsWordChar(s[r]))
    decreases |s| - k
  {
    if k < |s| && (if space then IsJsWhitespace(s[k]) else IsWordChar(s[k])) then RunEnd(s, k + 1, space)
    else k
  }

  /** The length of the match of `pat` at the start of `s`, if there is one. */
  function MatchAt(pat: Pattern, s: string): (r: Option<nat>)
    ensures r.Some? ==> 1 <= r.value <= |s|
  {
    match pat
    case ScriptBlock => MatchScriptBlock(s)
    case Tag => MatchTag(s)
    case JavascriptScheme => if StartsWithCaseless(s, "javascript:") then Some(11) else None
    case EventHandler => MatchEventHandler(s)
  }

  /** `<script[^>]*>.*?<\/script>`: the `>` that ends the opening tag is the
      first one after "<script", since `[^>]*` cannot pass it. */
  function MatchScriptBlock(s: string): (r: Option<nat>)
    ensures r.Some? ==> 1 <= r.value <= |s|
    ensures r.Some? ==> s[0] == '<'
  {
    if !StartsWithCaseless(s, "<script") then None
    else
      assert Lower(s[..7])[0] == '<';
      var close := IndexOfFrom(s, '>', 7);
      if close.None? then None
      else
        var k := LazyClose(s, close.value + 1);
        if k.None? then None else Some(k.value + 9)
  }

  /** `<[^>]*>`: from a '<' to the first '>' after it. */
  function MatchTag(s: string): (r: Option<nat>)
    ensures r.Some? ==> 1 <= r.value <= |s|
    ensures r.None? && |s| > 0 && s[0] == '<' ==> forall i :: 1 <= i < |s| ==> s[i] != '>'
  {
    if |s| == 0 || s[0] != '<' then None
    else
      var close := IndexOfFrom(s, '>', 1);
      if close.None? then None else Some(close.value + 1)
  }

  /** `on\w+\s*=`: "on", a maximal run of word characters (at least one),
      a maximal run of white space, then '='. No other split can match, as
      the three classes are disjoint. */
  function MatchEventHandler(s: string): (r: Option<nat>)
    ensures r.Some? ==> 1 <= r.value <= |s|
  {
    if !StartsWithCaseless(s, "on") || |s| == 2 || !IsWordChar(s[2]) then None
    else
      var k := RunEnd(s, RunEnd(s, 2, false), true);
      if k < |s| && s[k] == '=' then Some(k + 1) else None
  }

  /** `s.replace(pat, '')` with the global flag. */
  function RemoveAll(pat: Pattern, s: string): (r: string)
    ensures |r| <= |s|
    ensures r == s || |r| < |s|
    decreases |s|
  {
    if |s| == 0 then []
    else
      match MatchAt(pat, s)
      case Some(n) =>
        assert s == s[..n] + s[n..];
        RemoveAll(pat, s[n..])
      case None =>
        assert s == [s[0]] + s[1..];
        [s[0]] + RemoveAll(pat, s[1..])
  }

  /** A removal keeps a sub-multiset of the characters. */
  lemma {:induction false} RemoveAllDeletes(pat: Pattern, s: string)
    ensures multiset(RemoveAll(pat, s)) <= multiset(s)
    decreases |s|
  {
    if |s| > 0 {
      var m := MatchAt(pat, s);
      if m.Some? {
        DropDeletes(pat, s, m.value);
      } else {
        KeepDeletes(pat, s);
      }
    }
  }

  lemma {:induction false} DropDeletes(pat: Pattern, s: string, n: nat)
    requires |s| > 0 && MatchAt(pat, s) == Some(n)
    ensures multiset(RemoveAll(pat, s)) <= multiset(s)
    decreases |s|, 0
  {
    RemoveAllDeletes(pat, s[n..]);
    assert s == s[..n] + s[n..];
    assert multiset(s) == multiset(s[..n]) + multiset(s[n..]);
  }

  lemma {:induction false} KeepDeletes(pat: Pattern, s: string)
    requires |s| > 0 && MatchAt(pat, s).None?
    ensures multiset(RemoveAll(pat, s)) <= multiset(s)
    decreases |s|, 0
  {
    RemoveAllDeletes(pat, s[1..]);
    assert s == [s[0]] + s[1..];
    assert multiset(s) == multiset([s[0]]) + multiset(s[1..]);
  }

  /** `sanitizeInput`: the four global replacements by '' in source order.
      The text either comes back as it was or comes back shorter. */
  function Sanitize(s: string): (r: string)
    ensures r == s || |r| < |s|
  {
    RemoveAll(EventHandler, RemoveAll(JavascriptScheme, RemoveAll(Tag, RemoveAll(ScriptBlock, s))))
  }

  /** Sanitising only deletes characters: it never lengthens its input and
      never introduces a character. */
  lemma SanitizeOnlyDeletes(s: string)
    ensures |Sanitize(s)| <= |s|
    ensures multiset(Sanitize(s)) <= multiset(s)
  {
    var t1 := RemoveAll(ScriptBlock, s);
    var t2 := RemoveAll(Tag, t1);
    var t3 := RemoveAll(JavascriptScheme, t2);
    RemoveAllDeletes(ScriptBlock, s);
    RemoveAllDeletes(Tag, t1);
    RemoveAllDeletes(JavascriptScheme, t2);
    RemoveAllDeletes(EventHandler, t3);
  }

  /** No '<' is followed, anywhere later, by '>'. */
  predicate NoTagPair(s: string)
    decreases |s|
  {
    |s| == 0 || ((s[0] == '<' ==> '>' !in s[1..]) && NoTagPair(s[1..]))
  }

  lemma {:induction false} NoTagPairMeans(s: string)
    ensures NoTagPair(s) <==> forall i, j :: 0 <= i < j < |s| && s[i] == '<' ==> s[j] != '>'
    decreases |s|
  {
    if |s| > 0 {
      NoTagPairMeans(s[1..]);
      if NoTagPair(s) {
        forall i, j | 0 <= i < j < |s| && s[i] == '<' ensures s[j] != '>' {
          if i > 0 {
            assert s[1..][i - 1] == s[i] && s[1..][j - 1] == s[j];
          } else {
            assert s[1..][j - 1] == s[j];
          }
        }
      } else {
        if s[0] == '<' && '>' in s[1..] {
          var j :| 0 <= j < |s[1..]| && s[1..][j] == '>';
          assert s[j + 1] == '>';
        } else {
          assert !NoTagPair(s[1..]);
          var i, j :| 0 <= i < j < |s[1..]| && s[1..][i] == '<' && s[1..][j] == '>';
          assert s[i + 1] == '<' && s[j + 1] == '>';
        }
      }
    }
  }

  /** Removing tags leaves no '<' with a '>' after it. */
  lemma {:induction false} TagRemovalLeavesNoPair(s: string)
    ensures NoTagPair(RemoveAll(Tag, s))
    decreases |s|
  {
    if |s| > 0 {
      match MatchAt(Tag, s)
      case Some(n) =>
        TagRemovalLeavesNoPair(s[n..]);
      case None =>
        var rest := RemoveAll(Tag, s[1..]);
        TagRemovalLeavesNoPair(s[1..]);
        RemoveAllDeletes(Tag, s[1..]);
        if s[0] == '<' {
          assert MatchTag(s).None?;
          assert '>' !in s[1..];
          assert '>' !in multiset(s[1..]);
          assert '>' !in rest;
        }
    }
  }

  /** Any later removal keeps that property. */
  lemma {:induction false} RemovalKeepsNoPair(pat: Pattern, s: string)
    requires NoTagPair(s)
    ensures NoTagPair(RemoveAll(pat, s))
    decreases |s|
  {
    if |s| > 0 {
      match MatchAt(pat, s)
      case Some(n) =>
        SuffixKeepsNoPair(s, n);
        RemovalKeepsNoPair(pat, s[n..]);
      case None =>
        var rest := RemoveAll(pat, s[1..]);
        RemovalKeepsNoPair(pat, s[1..]);
        RemoveAllDeletes(pat, s[1..]);
        if s[0] == '<' {
          assert '>' !in multiset(s[1..]);
          assert '>' !in rest;
        }
    }
  }

  lemma {:induction false} SuffixKeepsNoPair(s: string, n: nat)
    requires NoTagPair(s) && n <= |s|
    ensures NoTagPair(s[n..])
    decreases n
  {
    if n > 0 {
      SuffixKeepsNoPair(s[1..], n - 1);
      assert s[1..][n - 1..] == s[n..];
    }
  }

  /** The sanitised text contains no '<' followed later by '>'. */
  lemma SanitizeLeavesNoTagPair(s: string)
    ensures NoTagPair(Sanitize(s))
    ensures forall i, j :: 0 <= i < j < |Sanitize(s)| && Sanitize(s)[i] == '<' ==> Sanitize(s)[j] != '>'
  {
    var t2 := RemoveAll(Tag, RemoveAll(ScriptBlock, s));
    TagRemovalLeavesNoPair(RemoveAll(ScriptBlock, s));
    RemovalKeepsNoPair(JavascriptScheme, t2);
    RemovalKeepsNoPair(EventHandler, RemoveAll(JavascriptScheme, t2));
    NoTagPairMeans(Sanitize(s));
  }

  /** `pat` matches nowhere in `s`. */
  predicate NoMatchAnywhere(pat: Pattern, s: string) {
    forall i :: 0 <= i < |s| ==> MatchAt(pat, s[i..]).None?
  }

  /** A removal that changes nothing found no match. */
  lemma {:induction false} UnchangedMeansNoMatch(pat: Pattern, s: string)
    requires RemoveAll(pat, s) == s
    ensures NoMatchAnywhere(pat, s)
    decreases |s|
  {
    if |s| > 0 {
      if MatchAt(pat, s).Some? {
        assert false;
      } else {
        assert [s[0]] + RemoveAll(pat, s[1..]) == s;
        assert RemoveAll(pat, s[1..]) == s[1..];
        UnchangedMeansNoMatch(pat, s[1..]);
        forall i | 1 <= i < |s| ensures MatchAt(pat, s[i..]).None? {
          assert s[1..][i - 1..] == s[i..];
        }
      }
    }
  }

  /** A search without a match leaves the text as it is. */
  lemma {:induction false} NoMatchMeansUnchanged(pat: Pattern, s: string)
    requires NoMatchAnywhere(pat, s)
    ensures RemoveAll(pat, s) == s
    decreases |s|
  {
    if |s| > 0 {
      assert s[0..] == s;
      forall i | 0 <= i < |s[1..]| ensures MatchAt(pat, s[1..][i..]).None? {
        assert s[1..][i..] == s[i + 1..];
      }
      NoMatchMeansUnchanged(pat, s[1..]);
    }
  }

  /** Without a '<' neither of the first two patterns can match. */
  lemma NoAngleUnchanged(s: string)
    requires '<' !in s
    ensures RemoveAll(ScriptBlock, s) == s && RemoveAll(Tag, s) == s
  {
    forall i | 0 <= i < |s| ensures MatchAt(ScriptBlock, s[i..]).None? && MatchAt(Tag, s[i..]).None? {
      assert s[i..][0] == s[i];
    }
    NoMatchMeansUnchanged(ScriptBlock, s);
    NoMatchMeansUnchanged(Tag, s);
  }

  /** Where no "on" begins, the event-handler pattern cannot match. */
  lemma NoOnUnchanged(s: string)
    requires forall i :: 0 <= i < |s| ==> s[i] != 'o' && s[i] != 'O'
    ensures RemoveAll(EventHandler, s) == s
  {
    forall i | 0 <= i < |s| ensures MatchAt(EventHandler, s[i..]).None? {
      assert LowerChar(s[i]) != 'o';
      if |s[i..]| >= 2 {
        assert Lower(s[i..][..2])[0] == LowerChar(s[i]);
      }
    }
    NoMatchMeansUnchanged(EventHandler, s);
  }

  lemma KeepStep(pat: Pattern, s: string)
    requires |s| > 0 && MatchAt(pat, s).None?
    ensures RemoveAll(pat, s) == [s[0]] + RemoveAll(pat, s[1..])
  {
  }

  lemma LiteralLower()
    ensures Lower("javascript:") == "javascript:"
  {
    var lit := "javascript:";
    assert forall i :: 0 <= i < |lit| ==> !IsAsciiUpper(lit[i]);
  }

  /** Text shorter than "javascript:" holds no match of it. */
  lemma ShortUnchanged(s: string)
    requires |s| < 11
    ensures RemoveAll(JavascriptScheme, s) == s
  {
    forall i | 0 <= i < |s| ensures MatchAt(JavascriptScheme, s[i..]).None? {
      assert |s[i..]| < 11;
    }
    NoMatchMeansUnchanged(JavascriptScheme, s);
  }

  lemma SchemeMatches()
    ensures MatchAt(JavascriptScheme, "javascript:") == Some(11)
  {
    LiteralLower();
    assert "javascript:"[..11] == "javascript:";
  }

  /** A leading "javascript:" is dropped. */
  lemma DropScheme(rest: string)
    ensures RemoveAll(JavascriptScheme, "javascript:" + rest) == RemoveAll(JavascriptScheme, rest)
  {
    var s := "javascript:" + rest;
    assert s[..11] == "javascript:";
    LiteralLower();
    assert s[11..] == rest;
  }

  /** "javascript:" has 'a' second, so a text with 'j' second does not start
      with it. */
  lemma SecondCharJ(s: string)
    requires |s| >= 2 && s[1] == 'j'
    ensures MatchAt(JavascriptScheme, s).None?
  {
    if |s| >= 11 {
      assert Lower(s[..11])[1] == 'j' != "javascript:"[1];
    }
  }

  lemma ExampleSplits()
    ensures "jjavascript:avascript:"[1..] == "javascript:" + "avascript:"
    ensures "jjavascript:avascript:"[..1] + "avascript:" == "javascript:"
  {
  }

  /** The `javascript:` pass over the example: the first 'j' kept, the
      inner scheme dropped, and a tail too short to match. */
  lemma JavascriptSchemeRejoined(s: string)
    requires s == "jjavascript:avascript:"
    ensures RemoveAll(JavascriptScheme, s) == "javascript:"
  {
    var tail := "avascript:";
    ExampleChars();
    SecondCharJ(s);
    KeepStep(JavascriptScheme, s);
    ExampleSplits();
    DropScheme(tail);
    ShortUnchanged(tail);
    assert [s[0]] == s[..1];
  }

  lemma ExampleChars()
    ensures |"jjavascript:avascript:"| == 22 && "jjavascript:avascript:"[1] == 'j'
    ensures '<' !in "jjavascript:avascript:" && '<' !in "javascript:"
    ensures forall i :: 0 <= i < |"javascript:"| ==> "javascript:"[i] != 'o' && "javascript:"[i] != 'O'
  {
  }

  /** One pass can leave the very text it strips: removing the inner
      "javascript:" joins the halves around it into a new one, which the
      later event-handler pass does not touch. */
  lemma SanitizeLeavesJavascriptScheme(s: string)
    requires s == "jjavascript:avascript:"
    ensures Sanitize(s) == "javascript:"
    ensures MatchAt(JavascriptScheme, Sanitize(s)) == Some(|Sanitize(s)|)
  {
    ExampleChars();
    NoAngleUnchanged(s);
    assert RemoveAll(Tag, RemoveAll(ScriptBlock, s)) == s;
    JavascriptSchemeRejoined(s);
    NoOnUnchanged("javascript:");
    SchemeMatches();
  }

  /** Sanitising repeated until nothing changes. */
  function SanitizeFully(s: string): (r: string)
    ensures |r| <= |s| && multiset(r) <= multiset(s)
    ensures Sanitize(r) == r
    decreases |s|
  {
    SanitizeOnlyDeletes(s);
    var t := Sanitize(s);
    if t == s then s else SanitizeFully(t)
  }

  /** The fully sanitised text holds no match of any of the four patterns,
      and no '<' followed later by '>'. */
  lemma SanitizeFullyRemovesEveryPattern(s: string)
    ensures var r := SanitizeFully(s);
      && NoMatchAnywhere(ScriptBlock, r) && NoMatchAnywhere(Tag, r)
      && NoMatchAnywhere(JavascriptScheme, r) && NoMatchAnywhere(EventHandler, r)
      && NoTagPair(r)
  {
    var r := SanitizeFully(s);
    var t1 := RemoveAll(ScriptBlock, r);
    var t2 := RemoveAll(Tag, t1);
    var t3 := RemoveAll(JavascriptScheme, t2);
    assert RemoveAll(EventHandler, t3) == r;
    assert t1 == r && t2 == r && t3 == r;
    UnchangedMeansNoMatch(ScriptBlock, r);
    UnchangedMeansNoMatch(Tag, r);
    UnchangedMeansNoMatch(JavascriptScheme, r);
    UnchangedMeansNoMatch(EventHandler, r);
    SanitizeLeavesNoTagPair(r);
  }

  /** The corrected sanitiser no longer lets the example through. */
  lemma SanitizeFullyExample(s: string)
    requires s == "jjavascript:avascript:"
    ensures SanitizeFully(s) == ""
  {
    SanitizeLeavesJavascriptScheme(s);
    var t := "javascript:";
    ExampleChars();
    NoAngleUnchanged(t);
    DropScheme("");
    assert t + "" == t;
    assert RemoveAll(JavascriptScheme, t) == "";
    assert Sanitize(t) == "";
    assert Sanitize("") == "";
  }
}
