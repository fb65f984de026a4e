/** Text is what Unicode scalar values encode to (section 3 of RFC 3629). */
module Utf8 {
  import opened Base

  /** A Unicode scalar value: a code point that is no surrogate. */
  predicate IsScalar(c: int) {
    0 <= c < 0xD800 || 0xE000 <= c < 0x11_0000
  }

  function EncodeChar(c: int): (s: Bytes)
    requires IsScalar(c)
    ensures 1 <= |s| <= 4
  {
    if c < 0x80 then [c]
    else if c < 0x800 then [0xC0 + c / 0x40, 0x80 + c % 0x40]
    else if c < 0x1_0000 then [0xE0 + c / 0x1000, 0x80 + c / 0x40 % 0x40, 0x80 + c % 0x40]
    else [0xF0 + c / 0x4_0000, 0x80 + c / 0x1000 % 0x40, 0x80 + c / 0x40 % 0x40, 0x80 + c % 0x40]
  }

  function EncodeText(cs: seq<int>): Bytes
    requires forall c | c in cs :: IsScalar(c)
  {
    if cs == [] then [] else EncodeChar(cs[0]) + EncodeText(cs[1..])
  }

  /** The scalar value the bytes start with. */
  function DecodeChar(s: Bytes): int
    requires CharLen(s) > 0
  {
    match CharLen(s)
    case 1 => s[0]
    case 2 => Joined(s[0] as int - 0xC0, s[1])
    case 3 => Joined(Joined(s[0] as int - 0xE0, s[1]), s[2])
    case _ => Joined(Joined(Joined(s[0] as int - 0xF0, s[1]), s[2]), s[3])
  }

  /** Six more bits. */
  function Joined(c: int, b: Byte): int {
    c * 0x40 + (b as int - 0x80)
  }

  lemma {:induction false} JoinedSplits(c: int, b: Byte)
    requires Continues(b)
    ensures Joined(c, b) / 0x40 == c && 0x80 + Joined(c, b) % 0x40 == b
  {
  }

  lemma {:induction false} Shifts(c: int)
    requires 0 <= c
    ensures c / 0x1000 == c / 0x40 / 0x40 && c / 0x4_0000 == c / 0x40 / 0x40 / 0x40
  {
  }

  lemma {:induction false} CharEncodes(s: Bytes)
    requires CharLen(s) > 0
    ensures IsScalar(DecodeChar(s)) && EncodeChar(DecodeChar(s)) == s[..CharLen(s)]
  {
    var n := CharLen(s);
    if n >= 2 {
      var c := s[0] as int - if n == 2 then 0xC0 else if n == 3 then 0xE0 else 0xF0;
      JoinedSplits(c, s[1]);
      if n >= 3 {
        JoinedSplits(Joined(c, s[1]), s[2]);
        if n == 4 {
          JoinedSplits(Joined(Joined(c, s[1]), s[2]), s[3]);
        }
      }
      Shifts(DecodeChar(s));
    }
  }

  lemma {:induction false} EncodedChar(c: int, rest: Bytes)
    requires IsScalar(c)
    ensures CharLen(EncodeChar(c) + rest) == |EncodeChar(c)|
    ensures (EncodeChar(c) + rest)[|EncodeChar(c)|..] == rest
  {
    var e := EncodeChar(c);
    var s := e + rest;
    assert forall i :: 0 <= i < |e| ==> s[i] == e[i];
    Shifts(c);
    if c >= 0x80 {
      assert Continues(s[1]);
      if c >= 0x800 {
        assert Continues(s[2]);
      }
    }
  }

  lemma {:induction false} EncodedIsValid(cs: seq<int>)
    requires forall c | c in cs :: IsScalar(c)
    ensures ValidUtf8(EncodeText(cs))
  {
    hide EncodeChar, CharLen;
    if cs != [] {
      EncodedChar(cs[0], EncodeText(cs[1..]));
      EncodedIsValid(cs[1..]);
    }
  }

  lemma {:induction false} ValidIsEncoded(s: Bytes) returns (cs: seq<int>)
    requires ValidUtf8(s)
    ensures (forall c | c in cs :: IsScalar(c)) && EncodeText(cs) == s
  {
    hide EncodeChar, CharLen, DecodeChar;
    if s == [] {
      cs := [];
    } else {
      var n := CharLen(s);
      CharEncodes(s);
      var rest := ValidIsEncoded(s[n..]);
      cs := [DecodeChar(s)] + rest;
      assert cs[1..] == rest && s == s[..n] + s[n..];
    }
  }

  /** A byte string is text if and only if it encodes some sequence of scalar values. */
  lemma {:induction false} TextIsEncoded(s: Bytes)
    ensures ValidUtf8(s) <==> exists cs: seq<int> :: (forall c | c in cs :: IsScalar(c)) && EncodeText(cs) == s
  {
    if ValidUtf8(s) {
      var cs := ValidIsEncoded(s);
    }
    if cs: seq<int> :| (forall c | c in cs :: IsScalar(c)) && EncodeText(cs) == s {
      EncodedIsValid(cs);
    }
  }
}
