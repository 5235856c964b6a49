/** `btoa` and `atob`: base64 with the alphabet and padding of section 4 of RFC 4648, over the
    "binary strings" of the web platform (every character is one byte, code point below 256).
    `atob` follows the forgiving-base64 decode of the WHATWG Infra standard. */
module Base64 {
  import opened Wrappers
  import opened Strings

  /** The character for a six-bit value. */
  function Sextet(v: int): (c: char)
    requires 0 <= v < 64
    ensures IsBase64Char(c) && SextetValue(c) == v
  {
    if v < 26 then (65 + v) as char
    else if v < 52 then (97 + v - 26) as char
    else if v < 62 then (48 + v - 52) as char
    else if v == 62 then '+'
    else '/'
  }

  predicate IsBase64Char(c: char) {
    ('A' <= c <= 'Z') || ('a' <= c <= 'z') || ('0' <= c <= '9') || c == '+' || c == '/'
  }

  /** The six-bit value of an alphabet character. */
  function SextetValue(c: char): (v: int)
    requires IsBase64Char(c)
    ensures 0 <= v < 64
  {
    if 'A' <= c <= 'Z' then c as int - 65
    else if 'a' <= c <= 'z' then c as int - 97 + 26
    else if '0' <= c <= '9' then c as int - 48 + 52
    else if c == '+' then 62
    else 63
  }

  predicate AllBase64(s: string) {
    forall i :: 0 <= i < |s| ==> IsBase64Char(s[i])
  }

  // ---------------------------------------------------------------- encoding

  /** The four characters of one full group of three bytes. */
  function EncodeGroup(b0: int, b1: int, b2: int): (r: string)
    requires 0 <= b0 < 256 && 0 <= b1 < 256 && 0 <= b2 < 256
    ensures |r| == 4 && AllBase64(r)
  {
    [Sextet(b0 / 4), Sextet((b0 % 4) * 16 + b1 / 16), Sextet((b1 % 16) * 4 + b2 / 64), Sextet(b2 % 64)]
  }

  /** The three characters of a final group of two bytes. */
  function EncodeTwo(b0: int, b1: int): (r: string)
    requires 0 <= b0 < 256 && 0 <= b1 < 256
    ensures |r| == 3 && AllBase64(r)
  {
    [Sextet(b0 / 4), Sextet((b0 % 4) * 16 + b1 / 16), Sextet((b1 % 16) * 4)]
  }

  /** The two characters of a final group of one byte. */
  function EncodeOne(b0: int): (r: string)
    requires 0 <= b0 < 256
    ensures |r| == 2 && AllBase64(r)
  {
    [Sextet(b0 / 4), Sextet((b0 % 4) * 16)]
  }

  /** The encoding of the bytes of `s`, without the trailing `=` padding. */
  function EncodeUnpadded(s: string): (r: string)
    requires IsLatin1(s)
    ensures AllBase64(r)
  {
    if |s| >= 3 then EncodeGroup(s[0] as int, s[1] as int, s[2] as int) + EncodeUnpadded(s[3..])
    else if |s| == 2 then EncodeTwo(s[0] as int, s[1] as int)
    else if |s| == 1 then EncodeOne(s[0] as int)
    else []
  }

  /** Four characters per full group, and two or three for a final partial one. */
  lemma GroupArithmetic(n: int, k: int)
    ensures (n - 3) % 3 == n % 3 && (4 + k) % 4 == k % 4
  {
  }

  lemma {:induction false} EncodeUnpaddedLength(s: string)
    requires IsLatin1(s)
    ensures |EncodeUnpadded(s)| % 4 == if |s| % 3 == 0 then 0 else |s| % 3 + 1
  {
    var n := |s|;
    if n >= 3 {
      var rest := EncodeUnpadded(s[3..]);
      EncodeUnpaddedLength(s[3..]);
      assert |s[3..]| == n - 3;
      GroupArithmetic(n, |rest|);
      assert |EncodeUnpadded(s)| == 4 + |rest|;
      assert |EncodeUnpadded(s)| % 4 == if |s| % 3 == 0 then 0 else |s| % 3 + 1;
    } else if n == 2 {
      assert |EncodeUnpadded(s)| == 3;
      assert |EncodeUnpadded(s)| % 4 == if |s| % 3 == 0 then 0 else |s| % 3 + 1;
    } else if n == 1 {
      assert |EncodeUnpadded(s)| == 2;
      assert |EncodeUnpadded(s)| % 4 == if |s| % 3 == 0 then 0 else |s| % 3 + 1;
    } else {
      assert |EncodeUnpadded(s)| == 0;
    }
  }

  /** The `=` characters that bring an encoding of `n` bytes up to a multiple of four. */
  function Padding(n: nat): (p: string)
    ensures forall i :: 0 <= i < |p| ==> p[i] == '='
  {
    if n % 3 == 1 then "==" else if n % 3 == 2 then "=" else ""
  }

  /** `btoa(s)`: None where the source throws, on a character above U+00FF. */
  function Btoa(s: string): (r: Option<string>)
    ensures r.Some? <==> IsLatin1(s)
  {
    if IsLatin1(s) then Some(EncodeUnpadded(s) + Padding(|s|)) else None
  }

  // ---------------------------------------------------------------- forgiving decoding

  /** TAB, LF, FF, CR and SPACE: the ASCII whitespace forgiving-base64 ignores. */
  predicate IsAsciiWhitespace(c: char) {
    c == '\t' || c == '\n' || c as int == 0x0C || c == '\r' || c == ' '
  }

  function RemoveAsciiWhitespace(s: string): (r: string)
    ensures |r| <= |s|
    ensures forall i :: 0 <= i < |r| ==> !IsAsciiWhitespace(r[i])
  {
    if s == [] then []
    else if IsAsciiWhitespace(s[0]) then RemoveAsciiWhitespace(s[1..])
    else [s[0]] + RemoveAsciiWhitespace(s[1..])
  }

  /** Drops one or two trailing `=` when the length is a multiple of four. */
  function StripPadding(s: string): (r: string)
    ensures |r| <= |s| && r == s[..|r|]
  {
    if |s| % 4 != 0 then s
    else if |s| >= 2 && s[|s| - 1] == '=' && s[|s| - 2] == '=' then s[..|s| - 2]
    else if |s| >= 1 && s[|s| - 1] == '=' then s[..|s| - 1]
    else s
  }

  /** The bytes of a run of alphabet characters; a final group of two or three characters
      yields one or two bytes, and its leftover bits are discarded. */
  function DecodeRun(s: string): (r: string)
    requires AllBase64(s)
    ensures IsLatin1(r)
  {
    if |s| >= 4 then
      var v0, v1, v2, v3 := SextetValue(s[0]), SextetValue(s[1]), SextetValue(s[2]), SextetValue(s[3]);
      [(v0 * 4 + v1 / 16) as char, ((v1 % 16) * 16 + v2 / 4) as char, ((v2 % 4) * 64 + v3) as char]
        + DecodeRun(s[4..])
    else if |s| == 3 then
      var v0, v1, v2 := SextetValue(s[0]), SextetValue(s[1]), SextetValue(s[2]);
      [(v0 * 4 + v1 / 16) as char, ((v1 % 16) * 16 + v2 / 4) as char]
    else if |s| == 2 then
      var v0, v1 := SextetValue(s[0]), SextetValue(s[1]);
      [(v0 * 4 + v1 / 16) as char]
    else []
  }

  /** `atob(s)`: None where the source throws (a length of 1 modulo 4 after the padding is dropped,
      or a character outside the alphabet). */
  function Atob(s: string): (r: Option<string>)
    ensures r.Some? ==> IsLatin1(r.value)
  {
    var t := StripPadding(RemoveAsciiWhitespace(s));
    if |t| % 4 == 1 || !AllBase64(t) then None else Some(DecodeRun(t))
  }

  // ---------------------------------------------------------------- the round trip

  lemma DecodeEncodeGroup(b0: int, b1: int, b2: int)
    requires 0 <= b0 < 256 && 0 <= b1 < 256 && 0 <= b2 < 256
    ensures var e := EncodeGroup(b0, b1, b2);
      SextetValue(e[0]) * 4 + SextetValue(e[1]) / 16 == b0 &&
      (SextetValue(e[1]) % 16) * 16 + SextetValue(e[2]) / 4 == b1 &&
      (SextetValue(e[2]) % 4) * 64 + SextetValue(e[3]) == b2
  {
    var v1 := (b0 % 4) * 16 + b1 / 16;
    var v2 := (b1 % 16) * 4 + b2 / 64;
    assert v1 / 16 == b0 % 4 && v1 % 16 == b1 / 16;
    assert v2 / 4 == b1 % 16 && v2 % 4 == b2 / 64;
  }

  lemma DecodeEncodeTwo(b0: int, b1: int)
    requires 0 <= b0 < 256 && 0 <= b1 < 256
    ensures DecodeRun(EncodeTwo(b0, b1)) == [b0 as char, b1 as char]
  {
    var v1 := (b0 % 4) * 16 + b1 / 16;
    assert v1 / 16 == b0 % 4 && v1 % 16 == b1 / 16;
    assert ((b1 % 16) * 4) / 4 == b1 % 16;
  }

  lemma DecodeEncodeOne(b0: int)
    requires 0 <= b0 < 256
    ensures DecodeRun(EncodeOne(b0)) == [b0 as char]
  {
    assert ((b0 % 4) * 16) / 16 == b0 % 4;
  }

  lemma DecodeRunGroup(b0: int, b1: int, b2: int, rest: string)
    requires 0 <= b0 < 256 && 0 <= b1 < 256 && 0 <= b2 < 256 && AllBase64(rest)
    ensures DecodeRun(EncodeGroup(b0, b1, b2) + rest) == [b0 as char, b1 as char, b2 as char] + DecodeRun(rest)
  {
    var e := EncodeGroup(b0, b1, b2) + rest;
    DecodeEncodeGroup(b0, b1, b2);
    assert e[4..] == rest;
  }

  lemma {:induction false} DecodeRunEncodeUnpadded(s: string)
    requires IsLatin1(s)
    ensures DecodeRun(EncodeUnpadded(s)) == s
  {
    if |s| >= 3 {
      var rest := EncodeUnpadded(s[3..]);
      var g := EncodeGroup(s[0] as int, s[1] as int, s[2] as int);
      assert EncodeUnpadded(s) == g + rest;
      DecodeRunEncodeUnpadded(s[3..]);
      DecodeRunGroup(s[0] as int, s[1] as int, s[2] as int, rest);
      SplitThree(s);
    } else {
      DecodeRunEncodeShort(s);
    }
  }

  lemma SplitThree(s: string)
    requires |s| >= 3
    ensures [s[0] as int as char, s[1] as int as char, s[2] as int as char] + s[3..] == s
  {
    assert s == s[..3] + s[3..];
  }

  lemma DecodeRunEncodeShort(s: string)
    requires IsLatin1(s) && |s| < 3
    ensures DecodeRun(EncodeUnpadded(s)) == s
  {
    if |s| == 2 {
      DecodeRunEncodePair(s);
    } else if |s| == 1 {
      DecodeRunEncodeSingle(s);
    }
  }

  lemma DecodeRunEncodePair(s: string)
    requires IsLatin1(s) && |s| == 2
    ensures DecodeRun(EncodeUnpadded(s)) == s
  {
    assert EncodeUnpadded(s) == EncodeTwo(s[0] as int, s[1] as int);
    DecodeEncodeTwo(s[0] as int, s[1] as int);
    SplitTwo(s);
  }

  lemma SplitTwo(s: string)
    requires |s| == 2
    ensures [s[0] as int as char, s[1] as int as char] == s
  {
  }

  lemma DecodeRunEncodeSingle(s: string)
    requires IsLatin1(s) && |s| == 1
    ensures DecodeRun(EncodeUnpadded(s)) == s
  {
    assert EncodeUnpadded(s) == EncodeOne(s[0] as int);
    DecodeEncodeOne(s[0] as int);
    assert [s[0] as int as char] == s;
  }

  lemma RemoveAsciiWhitespaceKeeps(s: string)
    requires forall i :: 0 <= i < |s| ==> !IsAsciiWhitespace(s[i])
    ensures RemoveAsciiWhitespace(s) == s
  {
  }

  /** Alphabet characters followed by `=` padding hold no ASCII whitespace. */
  lemma PaddedHasNoWhitespace(u: string, p: string)
    requires AllBase64(u)
    requires forall i :: 0 <= i < |p| ==> p[i] == '='
    ensures forall i :: 0 <= i < |u + p| ==> !IsAsciiWhitespace((u + p)[i])
  {
    var e := u + p;
    forall i | 0 <= i < |e| ensures !IsAsciiWhitespace(e[i]) {
      if i < |u| { assert e[i] == u[i]; } else { assert e[i] == p[i - |u|]; }
    }
  }

  /** Dropping the padding that completes the last group of an alphabet run gives the run back. */
  lemma StripPaddingOfPadded(u: string, p: string)
    requires AllBase64(u)
    requires (|u| % 4 == 0 && p == "") || (|u| % 4 == 2 && p == "==") || (|u| % 4 == 3 && p == "=")
    ensures StripPadding(u + p) == u
  {
    var e := u + p;
    if p == "" {
      assert e == u;
      assert u == [] || IsBase64Char(u[|u| - 1]);
    } else if p == "==" {
      assert e[..|e| - 2] == u;
    } else {
      assert |u| >= 1 && e[|e| - 2] == u[|u| - 1] && IsBase64Char(u[|u| - 1]);
      assert e[..|e| - 1] == u;
    }
  }

  /** A non-empty string encodes to a non-empty cookie value. */
  lemma BtoaNonEmpty(s: string)
    requires IsLatin1(s) && s != []
    ensures Btoa(s).value != []
  {
    assert |EncodeUnpadded(s)| >= 2;
  }

  /** atob undoes btoa on every string btoa accepts. */
  lemma AtobBtoa(s: string)
    requires IsLatin1(s)
    ensures Atob(Btoa(s).value) == Some(s)
  {
    var u := EncodeUnpadded(s);
    var p := Padding(|s|);
    var e := u + p;
    assert Btoa(s).value == e;
    EncodeUnpaddedLength(s);
    PaddedHasNoWhitespace(u, p);
    StripPaddingOfPadded(u, p);
    RemoveAsciiWhitespaceKeeps(e);
    assert StripPadding(RemoveAsciiWhitespace(e)) == u;
    assert |u| % 4 != 1 && AllBase64(u);
    DecodeRunEncodeUnpadded(s);
  }
}
