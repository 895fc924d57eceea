/** `encryptSensitiveData` and `decryptSensitiveData` (src/lib/enhanced-security.ts):
    the browser's `btoa` and `atob`, that is base64 with the standard alphabet
    and '=' padding (section 4 of RFC 4648), where a string stands for the
    bytes of its code points and the decoder is the "forgiving-base64 decode"
    of the WHATWG Infra standard (section 4.8 of that standard). */
module Base64 {
  import opened Common

  /** Every code point fits a byte, as `btoa` demands. */
  predicate IsLatin1(s: string) {
    forall i :: 0 <= i < |s| ==> s[i] as int < 256
  }

  /** The character of the base64 alphabet for a 6-bit value. */
  function EncodeSextet(v: int): (c: char)
    requires 0 <= v < 64
  {
    if v < 26 then ('A' as int + v) as char
    else if v < 52 then ('a' as int + (v - 26)) as char
    else if v < 62 then ('0' as int + (v - 52)) as char
    else if v == 62 then '+'
    else '/'
  }

  /** The 6-bit value of an alphabet character; `None` for anything else
      (including '='). */
  function DecodeSextet(c: char): (r: Option<int>)
    ensures r.Some? ==> 0 <= r.value < 64 && EncodeSextet(r.value) == c
  {
    if 'A' <= c <= 'Z' then Some(c as int - 'A' as int)
    else if 'a' <= c <= 'z' then Some(c as int - 'a' as int + 26)
    else if '0' <= c <= '9' then Some(c as int - '0' as int + 52)
    else if c == '+' then Some(62)
    else if c == '/' then Some(63)
    else None
  }

  lemma DecodeEncodeSextet(v: int)
    requires 0 <= v < 64
    ensures DecodeSextet(EncodeSextet(v)) == Some(v)
  {
  }

  predicate AllSextets(vs: seq<int>) {
    forall i :: 0 <= i < |vs| ==> 0 <= vs[i] < 64
  }

  /** The 6-bit groups of the bytes of `s`, three bytes to four groups; a final
      one or two bytes give two or three groups, the missing low bits zero. */
  function SextetsOf(s: string): (vs: seq<int>)
    requires IsLatin1(s)
    ensures AllSextets(vs)
    ensures |vs| == GroupsLength(|s|) && |vs| % 4 != 1
  {
    EncodedLength(|s|);
    if |s| == 0 then []
    else
      var a := s[0] as int;
      if |s| == 1 then [First(a), Second(a, 0)]
      else
        var b := s[1] as int;
        if |s| == 2 then [First(a), Second(a, b), Third(b, 0)]
        else
          var c := s[2] as int;
          var rest := SextetsOf(s[3..]);
          var vs := [First(a), Second(a, b), Third(b, c), Fourth(c)] + rest;
          assert forall i :: 4 <= i < |vs| ==> vs[i] == rest[i - 4];
          vs
  }

  /** The number of 6-bit groups for `n` bytes, before padding. */
  function GroupsLength(n: nat): nat {
    if n == 0 then 0 else if n == 1 then 2 else if n == 2 then 3 else 4 + GroupsLength(n - 3)
  }

  /** Groups plus padding fill whole blocks of four. */
  lemma {:induction false} EncodedLength(n: nat)
    ensures (GroupsLength(n) + |Padding(n)|) % 4 == 0
    ensures GroupsLength(n) % 4 == (if n % 3 == 0 then 0 else n % 3 + 1)
  {
    if n >= 3 {
      EncodedLength(n - 3);
      assert n % 3 == (n - 3) % 3;
      assert |Padding(n)| == |Padding(n - 3)|;
    }
  }

  /** ... and there are ceil(n / 3) of them. */
  lemma {:induction false} EncodedBlocks(n: nat)
    ensures GroupsLength(n) + |Padding(n)| == 4 * ((n + 2) / 3)
  {
    if n >= 3 {
      EncodedBlocks(n - 3);
      assert (n + 2) / 3 == (n - 1) / 3 + 1;
      assert |Padding(n)| == |Padding(n - 3)|;
    }
  }

  // The four 6-bit groups of bytes a, b, c, and the bytes of groups v0..v3.
  function First(a: int): int requires 0 <= a < 256 ensures 0 <= First(a) < 64 { a / 4 }
  function Second(a: int, b: int): int requires 0 <= a < 256 && 0 <= b < 256 ensures 0 <= Second(a, b) < 64 { (a % 4) * 16 + b / 16 }
  function Third(b: int, c: int): int requires 0 <= b < 256 && 0 <= c < 256 ensures 0 <= Third(b, c) < 64 { (b % 16) * 4 + c / 64 }
  function Fourth(c: int): int requires 0 <= c < 256 ensures 0 <= Fourth(c) < 64 { c % 64 }
  function ByteA(v0: int, v1: int): int requires 0 <= v0 < 64 && 0 <= v1 < 64 ensures 0 <= ByteA(v0, v1) < 256 { v0 * 4 + v1 / 16 }
  function ByteB(v1: int, v2: int): int requires 0 <= v1 < 64 && 0 <= v2 < 64 ensures 0 <= ByteB(v1, v2) < 256 { (v1 % 16) * 16 + v2 / 4 }
  function ByteC(v2: int, v3: int): int requires 0 <= v2 < 64 && 0 <= v3 < 64 ensures 0 <= ByteC(v2, v3) < 256 { (v2 % 4) * 64 + v3 }

  function SextetChars(vs: seq<int>): (r: string)
    requires AllSextets(vs)
    ensures |r| == |vs|
    ensures forall i :: 0 <= i < |vs| ==> r[i] == EncodeSextet(vs[i])
  {
    seq(|vs|, i requires 0 <= i < |vs| => EncodeSextet(vs[i]))
  }

  /** `btoa`: an input with a code point above U+00FF throws. */
  function Btoa(s: string): (r: Result<string>)
    ensures r.Err? <==> !IsLatin1(s)
  {
    if !IsLatin1(s) then Err("InvalidCharacterError")
    else
      var body := SextetChars(SextetsOf(s));
      Ok(body + Padding(|s|))
  }

  /** One '=' per byte missing from the last group of three. */
  function Padding(n: nat): (p: string)
    ensures |p| == (3 - n % 3) % 3
    ensures forall i :: 0 <= i < |p| ==> p[i] == '='
  {
    if n % 3 == 1 then "==" else if n % 3 == 2 then "=" else ""
  }

  /** ASCII whitespace in the sense of the Infra standard. */
  predicate IsAsciiWhitespace(c: char) {
    c == '\t' || c == '\n' || c == '\U{C}' || c == '\r' || c == ' '
  }

  predicate NotAsciiWhitespace(c: char) { !IsAsciiWhitespace(c) }

  /** The characters of `s` that are not white space, in order. */
  function StripWhitespace(s: string): (r: string)
    ensures r == Filter(s, NotAsciiWhitespace)
    ensures |r| <= |s|
    ensures forall i :: 0 <= i < |r| ==> !IsAsciiWhitespace(r[i])
  {
    if |s| == 0 then []
    else if IsAsciiWhitespace(s[0]) then StripWhitespace(s[1..])
    else [s[0]] + StripWhitespace(s[1..])
  }

  /** When the length is a multiple of four, one or two trailing '=' go:
      only '=' are removed, from the end, at most two, and removal stops
      early only at a character other than '='. */
  function StripPadding(s: string): (r: string)
    ensures |s| % 4 != 0 ==> r == s
    ensures |s| - 2 <= |r| <= |s| && r == s[..|r|]
    ensures forall i :: |r| <= i < |s| ==> s[i] == '='
    ensures |s| % 4 == 0 && 0 < |r| && |s| - 2 < |r| ==> r[|r| - 1] != '='
  {
    if |s| % 4 == 0 && |s| >= 2 && s[|s| - 1] == '=' && s[|s| - 2] == '=' then s[..|s| - 2]
    else if |s| % 4 == 0 && |s| >= 1 && s[|s| - 1] == '=' then s[..|s| - 1]
    else s
  }

  /** The 6-bit values of the characters, or `None` at the first character
      outside the alphabet. */
  function Sextets(s: string): (r: Option<seq<int>>)
    ensures r.Some? ==> |r.value| == |s| && AllSextets(r.value)
    ensures r.Some? ==> forall i :: 0 <= i < |s| ==> DecodeSextet(s[i]) == Some(r.value[i])
    ensures r.None? <==> exists i :: 0 <= i < |s| && DecodeSextet(s[i]).None?
  {
    if |s| == 0 then Some([])
    else
      var v := DecodeSextet(s[0]);
      var rest := Sextets(s[1..]);
      if v.None? then None
      else if rest.None? then
        var j :| 0 <= j < |s[1..]| && DecodeSextet(s[1..][j]).None?;
        assert DecodeSextet(s[j + 1]).None?;
        None
      else
        assert forall i :: 1 <= i < |s| ==> s[i] == s[1..][i - 1];
        Some([v.value] + rest.value)
  }

  /** The number of bytes `n` groups decode to: three per block of four, and
      one fewer than the groups in a final partial block. */
  function DecodedLength(n: nat): nat {
    3 * (n / 4) + (if n % 4 == 0 then 0 else n % 4 - 1)
  }

  /** Byte `i` of the decoding: byte `i % 3` of block `i / 3`. */
  function DecodedByte(vs: seq<int>, i: nat): int
    requires AllSextets(vs) && |vs| % 4 != 1 && i < DecodedLength(|vs|)
  {
    var b := 4 * (i / 3);
    if i % 3 == 0 then ByteA(vs[b], vs[b + 1])
    else if i % 3 == 1 then ByteB(vs[b + 1], vs[b + 2])
    else ByteC(vs[b + 2], vs[b + 3])
  }

  /** A block of four groups adds three bytes. */
  lemma DecodedLengthStep(n: nat)
    requires n >= 4
    ensures DecodedLength(n) == DecodedLength(n - 4) + 3
  {
    assert (n - 4) / 4 == n / 4 - 1 && (n - 4) % 4 == n % 4;
  }

  /** Dropping the first block shifts the decoding by three bytes. */
  lemma DecodedByteShift(vs: seq<int>, j: nat)
    requires AllSextets(vs) && |vs| % 4 != 1 && |vs| >= 4 && j < DecodedLength(|vs| - 4)
    ensures AllSextets(vs[4..]) && j + 3 < DecodedLength(|vs|)
    ensures DecodedByte(vs[4..], j) == DecodedByte(vs, j + 3)
  {
    DecodedLengthStep(|vs|);
    assert (j + 3) / 3 == j / 3 + 1 && (j + 3) % 3 == j % 3;
  }

  /** The first three decoded bytes are those of the first block. */
  lemma DecodedHead(vs: seq<int>)
    requires AllSextets(vs) && |vs| % 4 != 1 && |vs| >= 4
    ensures 3 <= DecodedLength(|vs|)
    ensures DecodedByte(vs, 0) == ByteA(vs[0], vs[1])
    ensures DecodedByte(vs, 1) == ByteB(vs[1], vs[2])
    ensures DecodedByte(vs, 2) == ByteC(vs[2], vs[3])
  {
    DecodedLengthStep(|vs|);
  }

  /** The first block's three bytes followed by the decoding of the rest is
      the decoding of the whole. */
  lemma DecodedBlockStep(vs: seq<int>, rest: string)
    requires AllSextets(vs) && |vs| % 4 != 1 && |vs| >= 4
    requires AllSextets(vs[4..]) && |rest| == DecodedLength(|vs| - 4)
    requires forall j {:trigger DecodedByte(vs[4..], j)} :: 0 <= j < |rest| ==> rest[j] as int == DecodedByte(vs[4..], j)
    ensures var r := [ByteA(vs[0], vs[1]) as char, ByteB(vs[1], vs[2]) as char, ByteC(vs[2], vs[3]) as char] + rest;
      |r| == DecodedLength(|vs|)
      && forall i {:trigger DecodedByte(vs, i)} :: 0 <= i < |r| ==> r[i] as int == DecodedByte(vs, i)
  {
    DecodedLengthStep(|vs|);
    DecodedHead(vs);
    var r := [ByteA(vs[0], vs[1]) as char, ByteB(vs[1], vs[2]) as char, ByteC(vs[2], vs[3]) as char] + rest;
    forall i | 0 <= i < |r| ensures r[i] as int == DecodedByte(vs, i) {
      if i == 0 {
      } else if i == 1 {
      } else if i == 2 {
      } else {
        assert r[i] == rest[i - 3];
        DecodedByteShift(vs, i - 3);
        assert rest[i - 3] as int == DecodedByte(vs[4..], i - 3);
      }
    }
  }

  /** Two or three groups decode to one or two bytes. */
  lemma DecodedShort(vs: seq<int>)
    requires AllSextets(vs) && (|vs| == 2 || |vs| == 3)
    ensures DecodedLength(|vs|) == |vs| - 1
    ensures DecodedByte(vs, 0) == ByteA(vs[0], vs[1])
    ensures |vs| == 3 ==> DecodedByte(vs, 1) == ByteB(vs[1], vs[2])
  {
  }

  /** Four groups to three bytes; a final two or three groups to one or two
      bytes, the leftover low bits discarded. */
  function GroupBytes(vs: seq<int>): (r: string)
    requires AllSextets(vs) && |vs| % 4 != 1
    ensures |r| == DecodedLength(|vs|)
    ensures forall i {:trigger DecodedByte(vs, i)} :: 0 <= i < |r| ==> r[i] as int == DecodedByte(vs, i)
    ensures IsLatin1(r)
  {
    if |vs| == 0 then []
    else if |vs| == 2 then
      DecodedShort(vs);
      [ByteA(vs[0], vs[1]) as char]
    else if |vs| == 3 then
      DecodedShort(vs);
      [ByteA(vs[0], vs[1]) as char, ByteB(vs[1], vs[2]) as char]
    else
      var rest := GroupBytes(vs[4..]);
      DecodedBlockStep(vs, rest);
      [ByteA(vs[0], vs[1]) as char, ByteB(vs[1], vs[2]) as char, ByteC(vs[2], vs[3]) as char] + rest
  }

  /** `atob`: forgiving-base64 decode. */
  function Atob(s: string): (r: Result<string>)
    ensures r.Ok? ==> IsLatin1(r.value)
  {
    var t := StripPadding(StripWhitespace(s));
    if |t| % 4 == 1 then Err("InvalidCharacterError")
    else
      var vs := Sextets(t);
      if vs.None? then Err("InvalidCharacterError")
      else Ok(GroupBytes(vs.value))
  }

  /** `encryptSensitiveData`: `btoa` with its exception passed on. */
  function Encrypt(data: string): (r: Result<string>)
    ensures r.Err? <==> !IsLatin1(data)
  {
    Btoa(data)
  }

  /** `decryptSensitiveData`: `atob`, with a failure caught and turned into ''. */
  function Decrypt(encrypted: string): (r: string)
    ensures IsLatin1(r)
    ensures Atob(encrypted).Err? ==> r == ""
    ensures Atob(encrypted).Ok? ==> r == Atob(encrypted).value
  {
    match Atob(encrypted)
    case Ok(v) => v
    case Err(_) => ""
  }

  // ---------------------------------------------------------------------
  // Round trip

  // The groups of three bytes give those bytes back.
  lemma ByteAOfGroups(a: int, b: int)
    requires 0 <= a < 256 && 0 <= b < 256
    ensures ByteA(First(a), Second(a, b)) == a
  {
    assert Second(a, b) / 16 == a % 4;
  }

  lemma ByteBOfGroups(a: int, b: int, c: int)
    requires 0 <= a < 256 && 0 <= b < 256 && 0 <= c < 256
    ensures ByteB(Second(a, b), Third(b, c)) == b
  {
    assert Second(a, b) % 16 == b / 16;
    assert Third(b, c) / 4 == b % 16;
  }

  lemma ByteCOfGroups(b: int, c: int)
    requires 0 <= b < 256 && 0 <= c < 256
    ensures ByteC(Third(b, c), Fourth(c)) == c
  {
    assert Third(b, c) % 4 == c / 64;
  }

  /** The first three bytes come back from their four groups. */
  lemma FullGroup(s: string)
    requires IsLatin1(s) && |s| >= 3
    ensures GroupBytes(SextetsOf(s)) == s[..3] + GroupBytes(SextetsOf(s[3..]))
  {
    var a, b, c := s[0] as int, s[1] as int, s[2] as int;
    assert s[..3] == [a as char, b as char, c as char];
    var vs := SextetsOf(s);
    assert vs[4..] == SextetsOf(s[3..]);
    ByteAOfGroups(a, b);
    ByteBOfGroups(a, b, c);
    ByteCOfGroups(b, c);
    assert GroupBytes(vs) == [a as char, b as char, c as char] + GroupBytes(vs[4..]);
  }

  /** A final two bytes come back from their three groups. */
  lemma LastTwo(s: string)
    requires IsLatin1(s) && |s| == 2
    ensures GroupBytes(SextetsOf(s)) == s
  {
    var a, b := s[0] as int, s[1] as int;
    assert s == [a as char, b as char];
    ByteAOfGroups(a, b);
    ByteBOfGroups(a, b, 0);
    var vs := SextetsOf(s);
    assert vs == [First(a), Second(a, b), Third(b, 0)];
    assert GroupBytes(vs) == [ByteA(vs[0], vs[1]) as char, ByteB(vs[1], vs[2]) as char];
  }

  /** A final byte comes back from its two groups. */
  lemma LastOne(s: string)
    requires IsLatin1(s) && |s| == 1
    ensures GroupBytes(SextetsOf(s)) == s
  {
    var a := s[0] as int;
    assert s == [a as char];
    ByteAOfGroups(a, 0);
    var vs := SextetsOf(s);
    assert vs == [First(a), Second(a, 0)];
    assert vs[0] == First(a) && vs[1] == Second(a, 0);
    assert ByteA(vs[0], vs[1]) == a;
    assert GroupBytes(vs) == [ByteA(vs[0], vs[1]) as char];
  }

  lemma {:induction false} GroupBytesOfSextets(s: string)
    requires IsLatin1(s)
    ensures GroupBytes(SextetsOf(s)) == s
    decreases |s|
  {
    if |s| >= 3 {
      FullGroup(s);
      GroupBytesOfSextets(s[3..]);
      assert s == s[..3] + s[3..];
    } else if |s| == 2 {
      LastTwo(s);
    } else if |s| == 1 {
      LastOne(s);
    }
  }

  lemma {:induction false} SextetsOfChars(vs: seq<int>)
    requires AllSextets(vs)
    ensures Sextets(SextetChars(vs)) == Some(vs)
    decreases |vs|
  {
    if |vs| > 0 {
      var t := SextetChars(vs);
      DecodeEncodeSextet(vs[0]);
      assert t[1..] == SextetChars(vs[1..]);
      SextetsOfChars(vs[1..]);
      assert vs == [vs[0]] + vs[1..];
    }
  }

  lemma {:induction false} StripWhitespaceNone(s: string)
    requires forall i :: 0 <= i < |s| ==> !IsAsciiWhitespace(s[i])
    ensures StripWhitespace(s) == s
    decreases |s|
  {
    if |s| > 0 {
      StripWhitespaceNone(s[1..]);
    }
  }

  /** The encoding holds no white space, so stripping it changes nothing. */
  lemma EncodingHasNoWhitespace(vs: seq<int>, n: nat)
    requires AllSextets(vs)
    ensures StripWhitespace(SextetChars(vs) + Padding(n)) == SextetChars(vs) + Padding(n)
  {
    var body := SextetChars(vs);
    var e := body + Padding(n);
    forall i | 0 <= i < |e| ensures !IsAsciiWhitespace(e[i]) {
      if i < |body| {
        DecodeEncodeSextet(vs[i]);
        assert DecodeSextet(e[i]).Some?;
      } else {
        assert e[i] == Padding(n)[i - |body|];
      }
    }
    StripWhitespaceNone(e);
  }

  /** Padding added after groups of the encoded length is exactly what
      stripping takes away. */
  lemma PaddingStripped(body: string, n: nat)
    requires |body| == GroupsLength(n)
    requires |body| > 0 ==> body[|body| - 1] != '='
    ensures StripPadding(body + Padding(n)) == body
  {
    var e := body + Padding(n);
    EncodedLength(n);
    assert |e| % 4 == 0;
    if n % 3 == 0 {
      assert e == body;
    } else if n % 3 == 1 {
      assert Padding(n) == "==" && |body| > 0;
      assert e[..|e| - 2] == body;
    } else {
      assert Padding(n) == "=" && |body| > 0;
      assert e[|e| - 2] == body[|body| - 1];
      assert e[..|e| - 1] == body;
    }
  }

  lemma LastNotPad(vs: seq<int>)
    requires AllSextets(vs)
    ensures var body := SextetChars(vs); |body| > 0 ==> body[|body| - 1] != '='
  {
    if |vs| > 0 {
      DecodeEncodeSextet(vs[|vs| - 1]);
    }
  }

  /** The encoding has no white space, and stripping its padding leaves the
      encoded groups. */
  lemma EncodingStrips(s: string)
    requires IsLatin1(s)
    ensures var body := SextetChars(SextetsOf(s));
      StripPadding(StripWhitespace(body + Padding(|s|))) == body
  {
    var vs := SextetsOf(s);
    var body := SextetChars(vs);
    assert |body| == |vs| == GroupsLength(|s|);
    EncodingHasNoWhitespace(vs, |s|);
    LastNotPad(vs);
    PaddingStripped(body, |s|);
  }

  /** What `btoa` produces, `atob` turns back into the same string. */
  lemma {:induction false} DecryptEncrypt(s: string)
    requires IsLatin1(s)
    ensures Encrypt(s).Ok? && Decrypt(Encrypt(s).value) == s
  {
    var vs := SextetsOf(s);
    var body := SextetChars(vs);
    assert Encrypt(s) == Ok(body + Padding(|s|));
    EncodingStrips(s);
    EncodedLength(|s|);
    assert |body| % 4 != 1;
    SextetsOfChars(vs);
    GroupBytesOfSextets(s);
  }

  /** The encoding of n bytes has 4 * ceil(n / 3) characters. */
  lemma EncryptLength(s: string)
    requires IsLatin1(s)
    ensures |Encrypt(s).value| == 4 * ((|s| + 2) / 3)
  {
    EncodedBlocks(|s|);
  }

  /** `btoa` output consists of alphabet characters followed by the padding. */
  lemma EncryptAlphabet(s: string)
    requires IsLatin1(s)
    ensures var e := Encrypt(s).value; var k := |e| - (3 - |s| % 3) % 3;
      0 <= k && (forall i :: 0 <= i < k ==> DecodeSextet(e[i]).Some?)
      && (forall i :: k <= i < |e| ==> e[i] == '=')
  {
    var vs := SextetsOf(s);
    var body := SextetChars(vs);
    var e := body + Padding(|s|);
    forall i | 0 <= i < |body| ensures DecodeSextet(e[i]).Some? {
      DecodeEncodeSextet(vs[i]);
    }
  }

  /** A text whose length, once white space is gone and padding stripped,
      leaves remainder one modulo four is refused, and decrypts to ''. */
  lemma DecryptRejectsLengthOneModFour(s: string)
    requires |StripPadding(StripWhitespace(s))| % 4 == 1
    ensures Atob(s).Err? && Decrypt(s) == ""
  {
  }

  /** A character outside the alphabet (after white space and padding are
      stripped) makes decryption yield ''. */
  lemma DecryptRejectsForeignCharacter(s: string, i: nat)
    requires var t := StripPadding(StripWhitespace(s)); i < |t| && DecodeSextet(t[i]).None?
    ensures Atob(s).Err? && Decrypt(s) == ""
  {
  }

  /** White space anywhere in the input is ignored by decryption. */
  lemma {:induction false} DecryptIgnoresWhitespace(s: string)
    ensures Decrypt(s) == Decrypt(StripWhitespace(s))
  {
    StripWhitespaceNone(StripWhitespace(s));
  }
}
