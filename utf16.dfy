/**
  UTF-16LE, the encoding Active Directory expects for the `unicodePwd`
  attribute. Characters of the Basic Multilingual Plane are one 16-bit code
  unit; the others are a surrogate pair. Each unit is written low byte first.
 */
module Utf16 {
  import opened Wrappers

  newtype byte = x: int | 0 <= x < 256

  /** The two bytes, low byte first, of one 16-bit code unit. */
  function UnitBytes(u: int): (r: seq<byte>)
    requires 0 <= u < 0x1_0000
    ensures |r| == 2 && r[0] as int + 256 * r[1] as int == u
  {
    [(u % 256) as byte, (u / 256) as byte]
  }

  predicate IsBmp(c: char) {
    c as int < 0x1_0000
  }

  predicate AllBmp(s: string) {
    forall i :: 0 <= i < |s| ==> IsBmp(s[i])
  }

  function EncodeChar(c: char): (r: seq<byte>)
    ensures |r| == if IsBmp(c) then 2 else 4
  {
    var v := c as int;
    if v < 0x1_0000 then UnitBytes(v)
    else
      var w := v - 0x1_0000;
      UnitBytes(0xD800 + w / 0x400) + UnitBytes(0xDC00 + w % 0x400)
  }

  /** Python's `s.encode('utf-16-le')`. */
  function Encode(s: string): (r: seq<byte>)
    ensures 2 * |s| <= |r| <= 4 * |s|
  {
    if s == [] then [] else EncodeChar(s[0]) + Encode(s[1..])
  }

  function Unit(lo: byte, hi: byte): int {
    lo as int + 256 * hi as int
  }

  /** The decoder on the directory's side: `None` for an odd length or an unpaired surrogate. */
  function Decode(b: seq<byte>): (r: Option<string>)
    decreases |b|
  {
    if b == [] then Some([])
    else if |b| < 2 then None
    else
      var u := Unit(b[0], b[1]);
      if 0xD800 <= u < 0xDC00 then
        if |b| < 4 then None
        else
          var l := Unit(b[2], b[3]);
          if 0xDC00 <= l < 0xE000 then
            var v := 0x1_0000 + (u - 0xD800) * 0x400 + (l - 0xDC00);
            match Decode(b[4..])
            case None => None
            case Some(rest) => Some([v as char] + rest)
          else None
      else if 0xDC00 <= u < 0xE000 then None
      else
        match Decode(b[2..])
        case None => None
        case Some(rest) => Some([u as char] + rest)
  }

  lemma {:induction false} EncodeConcat(a: string, b: string)
    ensures Encode(a + b) == Encode(a) + Encode(b)
  {
    if a == [] {
      assert a + b == b;
    } else {
      assert (a + b)[1..] == a[1..] + b;
      EncodeConcat(a[1..], b);
    }
  }

  /** The directory recovers exactly the string that was encoded. */
  lemma {:induction false} DecodeEncode(s: string)
    ensures Decode(Encode(s)) == Some(s)
  {
    if s != [] {
      DecodeEncode(s[1..]);
      var c, tail := s[0], Encode(s[1..]);
      var b := EncodeChar(c) + tail;
      assert Encode(s) == b;
      var v := c as int;
      if v < 0x1_0000 {
        assert b[2..] == tail;
        assert Unit(b[0], b[1]) == v;
        assert [v as char] + s[1..] == s;
      } else {
        var w := v - 0x1_0000;
        assert b[4..] == tail;
        assert Unit(b[0], b[1]) == 0xD800 + w / 0x400;
        assert Unit(b[2], b[3]) == 0xDC00 + w % 0x400;
        assert 0x1_0000 + (w / 0x400) * 0x400 + w % 0x400 == v;
        assert [v as char] + s[1..] == s;
      }
    }
  }

  /** A string of BMP characters takes exactly two bytes per character. */
  lemma {:induction false} BmpLength(s: string)
    requires AllBmp(s)
    ensures |Encode(s)| == 2 * |s|
  {
    if s != [] {
      assert IsBmp(s[0]);
      assert AllBmp(s[1..]) by {
        forall i | 0 <= i < |s[1..]| ensures IsBmp(s[1..][i]) { assert s[1..][i] == s[i + 1]; }
      }
      BmpLength(s[1..]);
    }
  }
}
