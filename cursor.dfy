/** The opaque pagination cursor of the web application: the JSON text of a
    state object, UTF-8 encoded, in the URL- and filename-safe base 64 of
    section 5 of RFC 4648 with the `=` padding stripped; decoding pads the
    text back to a multiple of four characters. */
module Cursor {
  import opened Wrappers
  import opened Json
  import Base64

  /** `s.rstrip("=")` */
  function StripPadding(s: string): (r: string)
    ensures |r| <= |s| && r == s[..|r|]
    ensures r == [] || r[|r| - 1] != '='
    ensures forall i :: |r| <= i < |s| ==> s[i] == '='
  {
    if s != [] && s[|s| - 1] == '=' then StripPadding(s[..|s| - 1]) else s
  }

  /** `"=" * (-len(cursor) % 4)` appended to the cursor. */
  function Padded(cursor: string): (p: string)
    ensures |p| % 4 == 0
    ensures |p| - |cursor| == (-|cursor|) % 4 && 0 <= |p| - |cursor| <= 3
    ensures p[..|cursor|] == cursor
    ensures forall i :: |cursor| <= i < |p| ==> p[i] == '='
  {
    cursor + seq((-|cursor|) % 4, _ => '=')
  }

  /** `encode_cursor(state)` */
  function EncodeCursor(c: Codec, state: Json): (r: string)
    ensures forall i :: 0 <= i < |r| ==> r[i] != '=' && Base64.InAlphabet(r[i], true)
  {
    var b := Base64.Utf8(c.dumps(state));
    Unpadded(b);
    StripPadding(Base64.Encode(b, true))
  }

  /** `decode_cursor(cursor)`: any failure of the base 64 or the JSON layer is
      `None`. */
  function DecodeCursor(c: Codec, cursor: string): Option<Json> {
    var raw := Base64.Decode(Padded(cursor), true);
    if raw.None? then None else c.loads(raw.value)
  }

  /** Stripping the `=` from an encoding removes exactly its padding and
      leaves alphabet characters only. */
  lemma Unpadded(b: seq<Base64.Byte>)
    ensures StripPadding(Base64.Encode(b, true)) ==
              Base64.Encode(b, true)[..|Base64.Encode(b, true)| - Base64.PadCount(|b|)]
    ensures forall i :: 0 <= i < |StripPadding(Base64.Encode(b, true))| ==>
              StripPadding(Base64.Encode(b, true))[i] != '=' &&
              Base64.InAlphabet(StripPadding(Base64.Encode(b, true))[i], true)
  {
    var e := Base64.Encode(b, true);
    Base64.EncodeShape(b, true);
    Base64.EncodeGroups(b, true);
    StripExactly(e, Base64.PadCount(|b|));
  }

  /** A string whose `=` are exactly its last `pad` characters loses those and
      nothing else. */
  lemma {:induction false} StripExactly(e: string, pad: nat)
    requires pad <= |e|
    requires pad < |e| || e == []
    requires forall i :: 0 <= i < |e| ==> (e[i] == '=' <==> i >= |e| - pad)
    ensures StripPadding(e) == e[..|e| - pad]
    decreases pad
  {
    if pad > 0 {
      var e' := e[..|e| - 1];
      assert e[|e| - 1] == '=';
      StripExactly(e', pad - 1);
      assert e'[..|e'| - (pad - 1)] == e[..|e| - pad];
    } else if e != [] {
      assert e[|e| - 1] != '=';
      assert e[..|e|] == e;
    }
  }

  /** Padding an unpadded encoding restores it. */
  lemma PaddedRestores(b: seq<Base64.Byte>)
    ensures Padded(StripPadding(Base64.Encode(b, true))) == Base64.Encode(b, true)
  {
    var e := Base64.Encode(b, true);
    Base64.EncodeShape(b, true);
    Base64.EncodeGroups(b, true);
    Unpadded(b);
    PadBack(e, Base64.PadCount(|b|));
  }

  /** Cutting up to three `=` off a text whose length is a multiple of four and
      padding again gives the text back. */
  lemma PadBack(e: string, pad: nat)
    requires |e| % 4 == 0 && pad <= 3 && pad <= |e|
    requires forall i :: |e| - pad <= i < |e| ==> e[i] == '='
    ensures Padded(e[..|e| - pad]) == e
  {
    var r := e[..|e| - pad];
    PadCountBack(|e|, pad);
    var p := Padded(r);
    forall i | 0 <= i < |e| ensures p[i] == e[i] {
      if i < |r| {
        assert p[i] == p[..|r|][i];
      }
    }
  }

  lemma PadCountBack(n: nat, pad: nat)
    requires n % 4 == 0 && pad <= 3 && pad <= n
    ensures (-(n - pad)) % 4 == pad
  {
    var q := n / 4;
    assert -(n - pad) == pad + 4 * (-q);
  }

  /** `decode_cursor(encode_cursor(state)) == state`, given that the JSON
      layer round-trips. */
  lemma CursorRoundTrip(c: Codec, state: Json)
    requires RoundTrips(c)
    ensures DecodeCursor(c, EncodeCursor(c, state)) == Some(state)
  {
    var b := Base64.Utf8(c.dumps(state));
    PaddedRestores(b);
    Base64.DecodeEncode(b, true);
  }

  /** A state whose JSON text is not empty gives a non-empty cursor, which a
      later request treats as a cursor (`if cursor:`). */
  lemma EncodeCursorNonEmpty(c: Codec, state: Json)
    requires c.dumps(state) != ""
    ensures EncodeCursor(c, state) != ""
  {
    var s := c.dumps(state);
    var b := Base64.Utf8(s);
    assert b == Base64.Utf8Char(s[0]) + Base64.Utf8(s[1..]);
    Unpadded(b);
    Base64.EncodeGroups(b, true);
  }
}
