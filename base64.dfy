/** Base 64 encoding as in section 4 (standard alphabet) and section 5 (URL- and
    filename-safe alphabet) of RFC 4648, with `=` padding, plus the UTF-8
    encoding of a string (Python's `str.encode("utf-8")`). */
module Base64 {
  import opened Wrappers

  type Byte = x: int | 0 <= x < 256

  /** The character for a 6-bit value; `urlSafe` picks `-` and `_` for 62 and 63. */
  function Sextet(v: int, urlSafe: bool): char
    requires 0 <= v < 64
  {
    if v < 26 then ('A' as int + v) as char
    else if v < 52 then ('a' as int + (v - 26)) as char
    else if v < 62 then ('0' as int + (v - 52)) as char
    else if v == 62 then (if urlSafe then '-' else '+')
    else (if urlSafe then '_' else '/')
  }

  /** The 6-bit value of an alphabet character, or `None` outside the alphabet. */
  function SextetValue(c: char, urlSafe: bool): (r: Option<int>)
    ensures r.Some? ==> 0 <= r.value < 64
  {
    if 'A' <= c <= 'Z' then Some(c as int - 'A' as int)
    else if 'a' <= c <= 'z' then Some(c as int - 'a' as int + 26)
    else if '0' <= c <= '9' then Some(c as int - '0' as int + 52)
    else if c == (if urlSafe then '-' else '+') then Some(62)
    else if c == (if urlSafe then '_' else '/') then Some(63)
    else None
  }

  predicate InAlphabet(c: char, urlSafe: bool) {
    SextetValue(c, urlSafe).Some?
  }

  lemma SextetRoundTrip(v: int, urlSafe: bool)
    requires 0 <= v < 64
    ensures SextetValue(Sextet(v, urlSafe), urlSafe) == Some(v)
    ensures Sextet(v, urlSafe) != '='
  {
  }

  /** The four characters for three input bytes (no padding). */
  function EncodeGroup(b0: Byte, b1: Byte, b2: Byte, urlSafe: bool): string {
    [Sextet(b0 / 4, urlSafe), Sextet((b0 % 4) * 16 + b1 / 16, urlSafe),
     Sextet((b1 % 16) * 4 + b2 / 64, urlSafe), Sextet(b2 % 64, urlSafe)]
  }

  /** `base64.b64encode` (standard alphabet) or `base64.urlsafe_b64encode` (URL-safe alphabet). */
  function Encode(b: seq<Byte>, urlSafe: bool): string
  {
    if |b| == 0 then ""
    else if |b| == 1 then
      [Sextet(b[0] / 4, urlSafe), Sextet((b[0] % 4) * 16, urlSafe), '=', '=']
    else if |b| == 2 then
      [Sextet(b[0] / 4, urlSafe), Sextet((b[0] % 4) * 16 + b[1] / 16, urlSafe),
       Sextet((b[1] % 16) * 4, urlSafe), '=']
    else EncodeGroup(b[0], b[1], b[2], urlSafe) + Encode(b[3..], urlSafe)
  }

  /** One group of four characters; one or two `=` may close it. */
  function DecodeGroup(c0: char, c1: char, c2: char, c3: char, urlSafe: bool): (r: Option<seq<Byte>>)
    ensures r.Some? ==> 1 <= |r.value| <= 3
    ensures r.Some? && |r.value| == 3 ==> c3 != '='
  {
    var v0 := SextetValue(c0, urlSafe);
    var v1 := SextetValue(c1, urlSafe);
    var v2 := SextetValue(c2, urlSafe);
    var v3 := SextetValue(c3, urlSafe);
    if v0.None? || v1.None? then None
    else if c2 == '=' && c3 == '=' then
      Some([v0.value * 4 + v1.value / 16])
    else if v2.None? then None
    else if c3 == '=' then
      Some([v0.value * 4 + v1.value / 16, (v1.value % 16) * 16 + v2.value / 4])
    else if v3.None? then None
    else
      Some([v0.value * 4 + v1.value / 16, (v1.value % 16) * 16 + v2.value / 4,
            (v2.value % 4) * 64 + v3.value])
  }

  /** Strict decoding: the length is a multiple of 4, every character is in the
      alphabet except one or two `=` closing the final group. Bits below the
      last full byte are ignored, as binascii does. */
  function Decode(s: string, urlSafe: bool): Option<seq<Byte>>
  {
    if |s| == 0 then Some([])
    else if |s| < 4 then None
    else
      var g := DecodeGroup(s[0], s[1], s[2], s[3], urlSafe);
      if g.None? then None
      else if |s| == 4 then g
      else if |g.value| < 3 then None
      else
        var rest := Decode(s[4..], urlSafe);
        if rest.None? then None else Some(g.value + rest.value)
  }

  /** How many `=` close the encoding of `n` bytes. */
  function PadCount(n: nat): nat {
    if n % 3 == 0 then 0 else 3 - n % 3
  }

  /** Characters of an encoding: alphabet characters, with `=` exactly in the
      last `PadCount` positions. */
  lemma {:induction false} EncodeShape(b: seq<Byte>, urlSafe: bool)
    ensures |Encode(b, urlSafe)| == (|b| + 2) / 3 * 4
    ensures forall i :: 0 <= i < |Encode(b, urlSafe)| ==>
              (Encode(b, urlSafe)[i] == '=' <==> i >= |Encode(b, urlSafe)| - PadCount(|b|))
    ensures forall i :: 0 <= i < |Encode(b, urlSafe)| && Encode(b, urlSafe)[i] != '=' ==>
              InAlphabet(Encode(b, urlSafe)[i], urlSafe)
  {
    var r := Encode(b, urlSafe);
    if |b| == 1 || |b| == 2 {
      ShortShape(b, urlSafe);
    } else if |b| >= 3 {
      GroupShape(b[0], b[1], b[2], urlSafe);
      var g := EncodeGroup(b[0], b[1], b[2], urlSafe);
      var t := Encode(b[3..], urlSafe);
      EncodeShape(b[3..], urlSafe);
      assert r == g + t;
      GroupArithmetic(|b|);
      GroupThenShaped(g, t, PadCount(|b|), urlSafe);
    }
  }

  /** An encoding is whole groups of four; a non-empty one has room for its padding. */
  lemma {:induction false} EncodeGroups(b: seq<Byte>, urlSafe: bool)
    ensures |Encode(b, urlSafe)| % 4 == 0
    ensures PadCount(|b|) <= 2
    ensures b != [] ==> PadCount(|b|) < |Encode(b, urlSafe)|
  {
    if |b| == 1 || |b| == 2 {
      assert |Encode(b, urlSafe)| == 4;
    } else if |b| >= 3 {
      EncodeGroups(b[3..], urlSafe);
      assert PadCount(|b|) == PadCount(|b| - 3) by { GroupArithmetic(|b|); }
      assert |Encode(b, urlSafe)| == |Encode(b[3..], urlSafe)| + 4;
      FourMore(|Encode(b[3..], urlSafe)|);
    }
  }

  lemma FourMore(x: nat)
    requires x % 4 == 0
    ensures (x + 4) % 4 == 0
  {
  }

  /** Three more bytes add one group and leave the padding unchanged. */
  lemma GroupArithmetic(n: nat)
    requires n >= 3
    ensures (n + 2) / 3 * 4 == (n - 3 + 2) / 3 * 4 + 4
    ensures PadCount(n - 3) == PadCount(n)
  {
    var q := (n - 3) / 3;
    assert n - 3 == 3 * q + (n - 3) % 3;
    assert n == 3 * (q + 1) + (n - 3) % 3;
  }

  /** A full group of alphabet characters in front of a shaped encoding keeps
      the `=` in the last `pad` positions. */
  lemma GroupThenShaped(g: string, t: string, pad: nat, urlSafe: bool)
    requires |g| == 4
    requires forall i :: 0 <= i < 4 ==> g[i] != '=' && InAlphabet(g[i], urlSafe)
    requires pad <= |t|
    requires forall i :: 0 <= i < |t| ==> (t[i] == '=' <==> i >= |t| - pad)
    requires forall i :: 0 <= i < |t| && t[i] != '=' ==> InAlphabet(t[i], urlSafe)
    ensures forall i :: 0 <= i < |g + t| ==> ((g + t)[i] == '=' <==> i >= |g + t| - pad)
    ensures forall i :: 0 <= i < |g + t| && (g + t)[i] != '=' ==> InAlphabet((g + t)[i], urlSafe)
  {
    forall i | 0 <= i < |g + t|
      ensures (g + t)[i] == '=' <==> i >= |g + t| - pad
      ensures (g + t)[i] != '=' ==> InAlphabet((g + t)[i], urlSafe)
    {
      if i >= 4 {
        assert (g + t)[i] == t[i - 4];
      } else {
        assert (g + t)[i] == g[i];
      }
    }
  }

  lemma ShortShape(b: seq<Byte>, urlSafe: bool)
    requires 1 <= |b| <= 2
    ensures |Encode(b, urlSafe)| == 4
    ensures forall i :: 0 <= i < 4 ==>
              (Encode(b, urlSafe)[i] == '=' <==> i >= 4 - PadCount(|b|))
    ensures forall i :: 0 <= i < 4 && Encode(b, urlSafe)[i] != '=' ==>
              InAlphabet(Encode(b, urlSafe)[i], urlSafe)
  {
    SextetRoundTrip(b[0] / 4, urlSafe);
    if |b| == 1 {
      SextetRoundTrip((b[0] % 4) * 16, urlSafe);
    } else {
      SextetRoundTrip((b[0] % 4) * 16 + b[1] / 16, urlSafe);
      SextetRoundTrip((b[1] % 16) * 4, urlSafe);
    }
  }

  lemma GroupShape(b0: Byte, b1: Byte, b2: Byte, urlSafe: bool)
    ensures forall i :: 0 <= i < 4 ==>
              EncodeGroup(b0, b1, b2, urlSafe)[i] != '=' && InAlphabet(EncodeGroup(b0, b1, b2, urlSafe)[i], urlSafe)
  {
    SextetRoundTrip(b0 / 4, urlSafe);
    SextetRoundTrip((b0 % 4) * 16 + b1 / 16, urlSafe);
    SextetRoundTrip((b1 % 16) * 4 + b2 / 64, urlSafe);
    SextetRoundTrip(b2 % 64, urlSafe);
  }

  lemma DecodeOne(b0: Byte, urlSafe: bool)
    ensures DecodeGroup(Sextet(b0 / 4, urlSafe), Sextet((b0 % 4) * 16, urlSafe), '=', '=', urlSafe) == Some([b0])
  {
    SextetRoundTrip(b0 / 4, urlSafe);
    SextetRoundTrip((b0 % 4) * 16, urlSafe);
  }

  lemma DecodeTwo(b0: Byte, b1: Byte, urlSafe: bool)
    ensures DecodeGroup(Sextet(b0 / 4, urlSafe), Sextet((b0 % 4) * 16 + b1 / 16, urlSafe),
                        Sextet((b1 % 16) * 4, urlSafe), '=', urlSafe) == Some([b0, b1])
  {
    var v1 := (b0 % 4) * 16 + b1 / 16;
    var v2 := (b1 % 16) * 4;
    SextetRoundTrip(b0 / 4, urlSafe);
    SextetRoundTrip(v1, urlSafe);
    SextetRoundTrip(v2, urlSafe);
    assert v1 % 16 == b1 / 16;
    assert v2 / 4 == b1 % 16;
  }

  lemma DecodeThree(b0: Byte, b1: Byte, b2: Byte, urlSafe: bool)
    ensures var g := EncodeGroup(b0, b1, b2, urlSafe);
            DecodeGroup(g[0], g[1], g[2], g[3], urlSafe) == Some([b0, b1, b2])
  {
    var v1 := (b0 % 4) * 16 + b1 / 16;
    var v2 := (b1 % 16) * 4 + b2 / 64;
    SextetRoundTrip(b0 / 4, urlSafe);
    SextetRoundTrip(v1, urlSafe);
    SextetRoundTrip(v2, urlSafe);
    SextetRoundTrip(b2 % 64, urlSafe);
    assert v1 % 16 == b1 / 16;
    assert v2 / 4 == b1 % 16;
    assert v2 % 4 == b2 / 64;
  }

  /** A full group followed by a decodable tail decodes to the concatenation. */
  lemma DecodeCons(g: string, t: string, x: seq<Byte>, y: seq<Byte>, urlSafe: bool)
    requires |g| == 4 && |x| == 3
    requires DecodeGroup(g[0], g[1], g[2], g[3], urlSafe) == Some(x)
    requires Decode(t, urlSafe) == Some(y)
    ensures Decode(g + t, urlSafe) == Some(x + y)
  {
    var s := g + t;
    assert s[0] == g[0] && s[1] == g[1] && s[2] == g[2] && s[3] == g[3];
    if t == [] {
      assert s == g;
      assert x + y == x;
    } else {
      assert s[4..] == t;
    }
  }

  lemma DecodeEncodeShort(b: seq<Byte>, urlSafe: bool)
    requires 1 <= |b| <= 2
    ensures Decode(Encode(b, urlSafe), urlSafe) == Some(b)
  {
    var s := Encode(b, urlSafe);
    if |b| == 1 {
      DecodeOne(b[0], urlSafe);
      assert b == [b[0]];
    } else {
      DecodeTwo(b[0], b[1], urlSafe);
      assert b == [b[0], b[1]];
    }
  }

  /** Decoding an encoding gives the bytes back. */
  lemma {:induction false} DecodeEncode(b: seq<Byte>, urlSafe: bool)
    ensures Decode(Encode(b, urlSafe), urlSafe) == Some(b)
  {
    if |b| == 1 || |b| == 2 {
      DecodeEncodeShort(b, urlSafe);
    } else if |b| >= 3 {
      var g := EncodeGroup(b[0], b[1], b[2], urlSafe);
      DecodeThree(b[0], b[1], b[2], urlSafe);
      DecodeEncode(b[3..], urlSafe);
      DecodeCons(g, Encode(b[3..], urlSafe), [b[0], b[1], b[2]], b[3..], urlSafe);
      assert b == [b[0], b[1], b[2]] + b[3..];
    }
  }

  // ---------------------------------------------------------------------
  // UTF-8
  // ---------------------------------------------------------------------

  /** The UTF-8 bytes of one Unicode scalar value. */
  function Utf8Char(c: char): (r: seq<Byte>)
    ensures 1 <= |r| <= 4
    ensures c as int < 0x80 ==> r == [c as int]
  {
    var n := c as int;
    if n < 0x80 then [n]
    else if n < 0x800 then [0xC0 + n / 64, 0x80 + n % 64]
    else if n < 0x10000 then [0xE0 + n / 4096, 0x80 + (n / 64) % 64, 0x80 + n % 64]
    else [0xF0 + n / 262144, 0x80 + (n / 4096) % 64, 0x80 + (n / 64) % 64, 0x80 + n % 64]
  }

  /** `s.encode("utf-8")`. */
  function Utf8(s: string): seq<Byte> {
    if s == [] then [] else Utf8Char(s[0]) + Utf8(s[1..])
  }

  lemma {:induction false} Utf8Append(a: string, b: string)
    ensures Utf8(a + b) == Utf8(a) + Utf8(b)
  {
    if a != [] {
      assert (a + b)[1..] == a[1..] + b;
      Utf8Append(a[1..], b);
    } else {
      assert a + b == b;
    }
  }

  /** For ASCII text the UTF-8 bytes are the code points. */
  lemma {:induction false} Utf8Ascii(s: string)
    requires forall i :: 0 <= i < |s| ==> s[i] as int < 0x80
    ensures |Utf8(s)| == |s|
    ensures forall i :: 0 <= i < |s| ==> Utf8(s)[i] == s[i] as int
  {
    if s != [] {
      Utf8Ascii(s[1..]);
    }
  }
}
