/** The value types every other module is written in. */
module Base {
  datatype Option<+T> = None | Some(value: T)

  type Byte = b: int | 0 <= b < 0x100
  type Bytes = seq<Byte>
  type I16 = n: int | -0x8000 <= n < 0x8000
  type Oid = n: int | 0 <= n < 0x1_0000_0000

  const INVALID_OID: Oid := 0

  /** A PostgreSQL value: an opaque token, given its meaning by the type it belongs to. */
  type Datum = int

  predicate Continues(b: Byte) {
    0x80 <= b < 0xC0
  }

  /** The length of the well-formed UTF-8 sequence `s` starts with (section 4 of RFC 3629), or 0. */
  function CharLen(s: Bytes): (n: nat)
    ensures n <= |s| && n <= 4
    ensures s != [] && s[0] < 0x80 ==> n == 1
  {
    if |s| >= 1 && s[0] < 0x80 then 1
    else if |s| >= 2 && 0xC2 <= s[0] < 0xE0 && Continues(s[1]) then 2
    else if |s| >= 3 && 0xE0 <= s[0] < 0xF0 && Continues(s[1]) && Continues(s[2])
            && (s[0] == 0xE0 ==> s[1] >= 0xA0) && (s[0] == 0xED ==> s[1] < 0xA0) then 3
    else if |s| >= 4 && 0xF0 <= s[0] < 0xF5 && Continues(s[1]) && Continues(s[2]) && Continues(s[3])
            && (s[0] == 0xF0 ==> s[1] >= 0x90) && (s[0] == 0xF4 ==> s[1] < 0x90) then 4
    else 0
  }

  predicate ValidUtf8(s: Bytes) {
    s == [] || (var n := CharLen(s); n > 0 && ValidUtf8(s[n..]))
  }

  /** A Rust `String`: bytes that are valid UTF-8. */
  type Text = s: Bytes | ValidUtf8(s) witness []

  lemma {:induction false} AsciiIsValid(s: Bytes)
    requires forall b | b in s :: b < 0x80
    ensures ValidUtf8(s)
  {
    if s != [] {
      assert s[0] in s && forall b | b in s[1..] :: b in s;
      AsciiIsValid(s[1..]);
    }
  }
}
