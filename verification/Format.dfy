/** The on-page format of a summary: `serialize`, `Reader` and `deserialize` of index_storage.rs. */
module Format {
  import opened Base

  /** One column's summary. `min` holds the covering extent when `overlap` is set. */
  datatype ColSummary = ColSummary(
    attnum: I16,
    overlap: bool,
    typeName: Text,
    collation: Oid,
    min: Option<Text>,
    max: Option<Text>,
    hasNulls: bool,
    allNulls: bool,
    unbounded: bool)
  {
    function MadeUnbounded(): ColSummary {
      this.(unbounded := true, min := None, max := None)
    }
  }

  /** The `&mut IndexSummary` the code passes around: the entries of an index's columns, in order. */
  class IndexSummary {
    var cols: seq<ColSummary>

    constructor (cols: seq<ColSummary>)
      ensures this.cols == cols
    {
      this.cols := cols;
    }
  }

  const SUMMARY_VERSION: Byte := 2

  // ---- what the bytes of a summary are -----------------------------------------------

  function Le16(n: nat): (b: Bytes)
    requires n < 0x1_0000
    ensures |b| == 2
  {
    [n % 0x100, n / 0x100]
  }

  function Le32(n: Oid): (b: Bytes)
    ensures |b| == 4
  {
    Le16(n % 0x1_0000) + Le16(n / 0x1_0000)
  }

  /** Two's complement: `i16 as u16`. */
  function Unsigned(n: I16): (u: nat)
    ensures u < 0x1_0000
  {
    if n < 0 then n + 0x1_0000 else n
  }

  function Signed(u: nat): I16
    requires u < 0x1_0000
  {
    if u < 0x8000 then u else u - 0x1_0000
  }

  function Combine16(lo: int, hi: int): int {
    lo + 0x100 * hi
  }

  function EncodeFlags(c: ColSummary): Byte {
    (if c.hasNulls then 1 else 0) + (if c.allNulls then 2 else 0) + (if c.unbounded then 4 else 0)
  }

  predicate HasNullsFlag(flags: Byte) { flags % 2 == 1 }
  predicate AllNullsFlag(flags: Byte) { flags / 2 % 2 == 1 }
  predicate UnboundedFlag(flags: Byte) { flags / 4 % 2 == 1 }

  /** The length is truncated to 16 bits; the bytes are not. */
  function EncodeStr(s: Text): Bytes {
    Le16(|s| % 0x1_0000) + s
  }

  function EncodeOptStr(s: Option<Text>): Bytes {
    match s
    case None => [0]
    case Some(t) => [1] + EncodeStr(t)
  }

  /** The fixed-size part of a column. */
  function EncodeHead(c: ColSummary): (b: Bytes)
    ensures |b| == 8
  {
    Le16(Unsigned(c.attnum)) + [if c.overlap then 1 else 0] + [EncodeFlags(c)] + Le32(c.collation)
  }

  function EncodeStrings(c: ColSummary): Bytes {
    EncodeStr(c.typeName) + EncodeOptStr(c.min) + EncodeOptStr(c.max)
  }

  function EncodeCol(c: ColSummary): Bytes {
    EncodeHead(c) + EncodeStrings(c)
  }

  function EncodeCols(cols: seq<ColSummary>): Bytes {
    if cols == [] then [] else EncodeCol(cols[0]) + EncodeCols(cols[1..])
  }

  function Encode(cols: seq<ColSummary>): Bytes {
    [SUMMARY_VERSION] + (Le16(|cols| % 0x1_0000) + EncodeCols(cols))
  }

  /** Where the version, the column count and the first column's fixed fields and type name are. */
  lemma {:induction false} Layout(cols: seq<ColSummary>)
    requires cols != []
    ensures var e, c := Encode(cols), cols[0];
      && 13 + |c.typeName| <= |e|
      && e[0] == 2 && e[1] as int + 0x100 * e[2] as int == |cols| % 0x1_0000
      && e[3] as int + 0x100 * e[4] as int == (if c.attnum < 0 then c.attnum as int + 0x1_0000 else c.attnum as int)
      && e[5] == (if c.overlap then 1 else 0)
      && e[6] == (if c.hasNulls then 1 else 0) + (if c.allNulls then 2 else 0) + (if c.unbounded then 4 else 0)
      && e[7] as int + 0x100 * e[8] as int + 0x1_0000 * e[9] as int + 0x100_0000 * e[10] as int == c.collation
      && e[11] as int + 0x100 * e[12] as int == |c.typeName| % 0x1_0000
      && e[13..13 + |c.typeName|] == c.typeName
  {
    var c, e := cols[0], Encode(cols);
    var count, head, len := Le16(|cols| % 0x1_0000), EncodeHead(c), Le16(|c.typeName| % 0x1_0000);
    var tail := EncodeOptStr(c.min) + EncodeOptStr(c.max) + EncodeCols(cols[1..]);
    HeadLayout(c);
    hide EncodeOptStr, EncodeCols, EncodeHead, EncodeStr;
    assert e == [2] + count + head + len + c.typeName + tail by { Pieces(cols); }
    Placed(e, count, head, len, c.typeName, tail);
  }

  lemma {:induction false} Placed(e: Bytes, count: Bytes, head: Bytes, len: Bytes, name: Bytes, tail: Bytes)
    requires |count| == 2 && |head| == 8 && |len| == 2 && e == [2] + count + head + len + name + tail
    ensures 13 + |name| <= |e|
    ensures e[0] == 2 && e[1] == count[0] && e[2] == count[1] && e[11] == len[0] && e[12] == len[1]
    ensures (forall i :: 0 <= i < 8 ==> e[3 + i] == head[i]) && e[13..13 + |name|] == name
  {
  }

  lemma {:induction false} Pieces(cols: seq<ColSummary>)
    requires cols != []
    ensures var c := cols[0];
      Encode(cols) == [2] + Le16(|cols| % 0x1_0000) + EncodeHead(c) + Le16(|c.typeName| % 0x1_0000) + c.typeName
                      + (EncodeOptStr(c.min) + EncodeOptStr(c.max) + EncodeCols(cols[1..]))
  {
    hide EncodeOptStr, EncodeHead, Le16;
  }

  lemma {:induction false} HeadLayout(c: ColSummary)
    ensures var h := EncodeHead(c);
      && h[0] as int + 0x100 * h[1] as int == (if c.attnum < 0 then c.attnum as int + 0x1_0000 else c.attnum as int)
      && h[2] == (if c.overlap then 1 else 0)
      && h[3] == (if c.hasNulls then 1 else 0) + (if c.allNulls then 2 else 0) + (if c.unbounded then 4 else 0)
      && h[4] as int + 0x100 * h[5] as int + 0x1_0000 * h[6] as int + 0x100_0000 * h[7] as int == c.collation as int
  {
  }

  // ---- what a byte string means ------------------------------------------------------

  /** What a parser makes of a byte string: a value and the bytes after it, or nothing. */
  datatype Parsed<+T> = Fail | Got(value: T, rest: Bytes) {
    predicate IsFailure() { Fail? }
    function PropagateFailure<U>(): Parsed<U> requires Fail? { Fail }
    function Extract(): (T, Bytes) requires Got? { (value, rest) }
  }

  function DecodeU8(s: Bytes): Parsed<Byte> {
    if |s| < 1 then Fail else Got(s[0], s[1..])
  }

  function DecodeU16(s: Bytes): (p: Parsed<nat>)
    ensures p.Got? ==> p.value < 0x1_0000
  {
    if |s| < 2 then Fail else Got(Combine16(s[0], s[1]), s[2..])
  }

  function DecodeU32(s: Bytes): Parsed<Oid> {
    if |s| < 4 then Fail
    else Got(Combine16(s[0], s[1]) + 0x1_0000 * Combine16(s[2], s[3]), s[4..])
  }

  function DecodeStr(s: Bytes): (p: Parsed<Text>)
    ensures p.Got? ==> |p.value| < 0x1_0000
  {
    var (len, s) :- DecodeU16(s);
    if len <= |s| && ValidUtf8(s[..len]) then Got(s[..len], s[len..]) else Fail
  }

  function DecodeOptStr(s: Bytes): (p: Parsed<Option<Text>>)
    ensures p.Got? && p.value.Some? ==> |p.value.value| < 0x1_0000
  {
    var (tag, s) :- DecodeU8(s);
    if tag == 0 then Got(None, s) else
    var (t, s) :- DecodeStr(s);
    Got(Some(t), s)
  }

  datatype Head = Head(attnum: I16, overlap: bool, flags: Byte, collation: Oid)

  datatype Strings = Strings(typeName: Text, min: Option<Text>, max: Option<Text>)

  function DecodeHead(s: Bytes): Parsed<Head> {
    var (attnum, s) :- DecodeU16(s);
    var (overlap, s) :- DecodeU8(s);
    var (flags, s) :- DecodeU8(s);
    var (collation, s) :- DecodeU32(s);
    Got(Head(Signed(attnum), overlap != 0, flags, collation), s)
  }

  function DecodeStrings(s: Bytes): (p: Parsed<Strings>)
    ensures p.Got? ==> |p.value.typeName| < 0x1_0000 && ShortOpt(p.value.min) && ShortOpt(p.value.max)
  {
    var (typeName, s) :- DecodeStr(s);
    var (min, s) :- DecodeOptStr(s);
    var (max, s) :- DecodeOptStr(s);
    Got(Strings(typeName, min, max), s)
  }

  function Column(h: Head, t: Strings): ColSummary {
    ColSummary(h.attnum, h.overlap, t.typeName, h.collation, t.min, t.max,
               HasNullsFlag(h.flags), AllNullsFlag(h.flags), UnboundedFlag(h.flags))
  }

  function DecodeCol(s: Bytes): (p: Parsed<ColSummary>)
    ensures p.Got? ==> NoWrap(p.value)
  {
    var (head, s) :- DecodeHead(s);
    var (strings, s) :- DecodeStrings(s);
    Got(Column(head, strings), s)
  }

  function DecodeCols(n: nat, s: Bytes): (p: Parsed<seq<ColSummary>>)
    ensures p.Got? ==> |p.value| == n && forall c | c in p.value :: NoWrap(c)
  {
    if n == 0 then Got([], s) else
    var (c, s) :- DecodeCol(s);
    var (cs, s) :- DecodeCols(n - 1, s);
    Got([c] + cs, s)
  }

  /** Bytes after the last column are ignored. */
  function Decode(s: Bytes): (r: Option<seq<ColSummary>>)
    ensures r.Some? ==> CountFits(r.value)
  {
    if |s| < 3 || s[0] != SUMMARY_VERSION then None
    else ParsedValue(DecodeCols(Combine16(s[1], s[2]), s[3..]))
  }

  function ParsedValue<T>(p: Parsed<T>): Option<T> {
    if p.Got? then Some(p.value) else None
  }

  /** Only version 2 is read; any nonzero byte is true, and of the flags only their own bits count. */
  lemma {:induction false} ReadsBytes(s: Bytes)
    requires Decode(s).Some?
    ensures |s| >= 3 && s[0] == 2 && |Decode(s).value| == s[1] as int + 0x100 * s[2] as int
    ensures Decode(s).value != [] ==>
      var c := Decode(s).value[0];
      && |s| >= 11
      && c.attnum as int == (var n := s[3] as int + 0x100 * s[4] as int; if n < 0x8000 then n else n - 0x1_0000)
      && c.overlap == (s[5] != 0)
      && c.hasNulls == (s[6] % 2 == 1) && c.allNulls == (s[6] % 4 >= 2) && c.unbounded == (s[6] % 8 >= 4)
      && c.collation as int
         == s[7] as int + 0x100 * s[8] as int + 0x1_0000 * s[9] as int + 0x100_0000 * s[10] as int
  {
    if Decode(s).value != [] {
      FirstRead(s);
      ReadsHead(s[3..]);
    }
    hide DecodeHead, DecodeStrings, DecodeCols;
  }

  lemma {:induction false} FirstRead(s: Bytes)
    requires Decode(s).Some? && Decode(s).value != []
    ensures |s| >= 3 && DecodeHead(s[3..]).Got?
    ensures var c, h := Decode(s).value[0], DecodeHead(s[3..]).value;
      && c.attnum == h.attnum && c.overlap == h.overlap && c.collation == h.collation
      && c.hasNulls == (h.flags % 2 == 1) && c.allNulls == (h.flags % 4 >= 2) && c.unbounded == (h.flags % 8 >= 4)
  {
    hide DecodeHead, DecodeStrings;
  }

  lemma {:induction false} ReadsHead(s: Bytes)
    requires DecodeHead(s).Got?
    ensures |s| >= 8
    ensures var h := DecodeHead(s).value;
      && h.attnum as int == (var n := s[0] as int + 0x100 * s[1] as int; if n < 0x8000 then n else n - 0x1_0000)
      && h.overlap == (s[2] != 0) && h.flags == s[3]
      && h.collation as int
         == s[4] as int + 0x100 * s[5] as int + 0x1_0000 * s[6] as int + 0x100_0000 * s[7] as int
  {
  }

  // ---- which summaries survive the truncation of lengths ------------------------------

  predicate ShortOpt(s: Option<Text>) {
    s.Some? ==> |s.value| < 0x1_0000
  }

  predicate NoWrap(c: ColSummary) {
    |c.typeName| < 0x1_0000 && ShortOpt(c.min) && ShortOpt(c.max)
  }

  predicate CountFits(cols: seq<ColSummary>) {
    |cols| < 0x1_0000 && forall c | c in cols :: NoWrap(c)
  }

  lemma {:induction false} U32Inverse(n: Oid, rest: Bytes)
    ensures DecodeU32(Le32(n) + rest) == Got(n, rest)
  {
    var lo, hi := n % 0x1_0000, n / 0x1_0000;
    assert (Le32(n) + rest)[4..] == rest;
    assert lo == lo % 0x100 + 0x100 * (lo / 0x100) && hi == hi % 0x100 + 0x100 * (hi / 0x100);
  }

  lemma {:induction false} U16Inverse(n: nat, rest: Bytes)
    requires n < 0x1_0000
    ensures DecodeU16(Le16(n) + rest) == Got(n, rest)
  {
    assert (Le16(n) + rest)[2..] == rest;
  }

  lemma {:induction false} StrInverse(s: Text, rest: Bytes)
    requires |s| < 0x1_0000
    ensures DecodeStr(EncodeStr(s) + rest) == Got(s, rest)
  {
    assert EncodeStr(s) + rest == Le16(|s|) + (s + rest);
    U16Inverse(|s|, s + rest);
    assert (s + rest)[..|s|] == s && (s + rest)[|s|..] == rest;
  }

  lemma {:induction false} OptStrInverse(s: Option<Text>, rest: Bytes)
    requires ShortOpt(s)
    ensures DecodeOptStr(EncodeOptStr(s) + rest) == Got(s, rest)
  {
    match s
    case None =>
      assert ([0] + rest)[1..] == rest;
    case Some(t) =>
      assert EncodeOptStr(s) + rest == [1] + (EncodeStr(t) + rest);
      assert ([1] + (EncodeStr(t) + rest))[1..] == EncodeStr(t) + rest;
      StrInverse(t, rest);
  }

  lemma {:induction false} HeadInverse(c: ColSummary, rest: Bytes)
    ensures DecodeHead(EncodeHead(c) + rest)
         == Got(Head(c.attnum, c.overlap, EncodeFlags(c), c.collation), rest)
  {
    var s4 := Le32(c.collation) + rest;
    var s3 := [EncodeFlags(c)] + s4;
    var s2 := [if c.overlap then 1 else 0] + s3;
    U16Inverse(Unsigned(c.attnum), s2);
    U32Inverse(c.collation, rest);
    hide DecodeU16, DecodeU32, Le16, Le32, EncodeFlags;
    assert EncodeHead(c) + rest == Le16(Unsigned(c.attnum)) + s2;
    hide EncodeHead;
    assert s2[1..] == s3 && s3[1..] == s4;
  }

  lemma {:induction false} StringsInverse(c: ColSummary, rest: Bytes)
    requires NoWrap(c)
    ensures DecodeStrings(EncodeStrings(c) + rest) == Got(Strings(c.typeName, c.min, c.max), rest)
  {
    var s2 := EncodeOptStr(c.max) + rest;
    var s1 := EncodeOptStr(c.min) + s2;
    assert EncodeStrings(c) + rest == EncodeStr(c.typeName) + s1;
    StrInverse(c.typeName, s1);
    OptStrInverse(c.min, s2);
    OptStrInverse(c.max, rest);
  }

  lemma {:induction false} ColInverse(c: ColSummary, rest: Bytes)
    requires NoWrap(c)
    ensures DecodeCol(EncodeCol(c) + rest) == Got(c, rest)
  {
    assert Column(Head(c.attnum, c.overlap, EncodeFlags(c), c.collation), Strings(c.typeName, c.min, c.max)) == c;
    hide EncodeHead, EncodeStrings, EncodeFlags, DecodeHead, DecodeStrings, Column, ValidUtf8;
    assert EncodeCol(c) + rest == EncodeHead(c) + (EncodeStrings(c) + rest);
    HeadInverse(c, EncodeStrings(c) + rest);
    StringsInverse(c, rest);
  }

  lemma {:induction false} DecodeColsCons(s: Bytes, c: ColSummary, mid: Bytes, cs: seq<ColSummary>, rest: Bytes)
    requires DecodeCol(s) == Got(c, mid) && DecodeCols(|cs|, mid) == Got(cs, rest)
    ensures DecodeCols(|cs| + 1, s) == Got([c] + cs, rest)
  {
    hide DecodeCol, NoWrap;
  }

  lemma {:induction false} ColsInverse(cols: seq<ColSummary>, rest: Bytes)
    requires forall c | c in cols :: NoWrap(c)
    ensures DecodeCols(|cols|, EncodeCols(cols) + rest) == Got(cols, rest)
  {
    hide EncodeCol, DecodeCol, NoWrap;
    if cols == [] {
      assert EncodeCols(cols) + rest == rest;
    } else {
      hide DecodeCols;
      var tail := EncodeCols(cols[1..]) + rest;
      assert EncodeCols(cols) + rest == EncodeCol(cols[0]) + tail;
      ColInverse(cols[0], tail);
      ColsInverse(cols[1..], rest);
      DecodeColsCons(EncodeCol(cols[0]) + tail, cols[0], tail, cols[1..], rest);
      assert cols == [cols[0]] + cols[1..];
    }
  }

  /**
   * Exactly the summaries whose lengths survive truncation to 16 bits read back as themselves,
   * whatever bytes follow them.
   */
  lemma {:induction false} RoundTrip(cols: seq<ColSummary>, rest: Bytes)
    ensures Decode(Encode(cols) + rest) == Some(cols) <==> CountFits(cols)
  {
    hide EncodeCols, DecodeCols, NoWrap;
    if CountFits(cols) {
      var body := EncodeCols(cols) + rest;
      var s := Encode(cols) + rest;
      assert s == [SUMMARY_VERSION] + Le16(|cols|) + body;
      assert s[3..] == body && [s[1], s[2]] == Le16(|cols|);
      ColsInverse(cols, rest);
    }
  }

  // ---- sizes -------------------------------------------------------------------------

  function OptLen(s: Option<Text>): nat {
    if s.Some? then |s.value| else 0
  }

  /** Bytes `make_unbounded` would free. */
  function Saving(c: ColSummary): nat {
    (if c.min.Some? then 2 + |c.min.value| else 0) + (if c.max.Some? then 2 + |c.max.value| else 0)
  }

  /** What the greedy loop weighs a column by. */
  function BoundLen(c: ColSummary): nat {
    OptLen(c.min) + OptLen(c.max)
  }

  function ColSize(c: ColSummary): nat {
    12 + |c.typeName| + Saving(c)
  }

  function ColsSize(cols: seq<ColSummary>): nat {
    if cols == [] then 0 else ColSize(cols[0]) + ColsSize(cols[1..])
  }

  lemma {:induction false} EncodedSize(cols: seq<ColSummary>)
    ensures |EncodeCols(cols)| == ColsSize(cols)
  {
    if cols != [] {
      EncodedSize(cols[1..]);
    }
  }

  lemma {:induction false} SizeBoundsParts(cols: seq<ColSummary>)
    ensures 12 * |cols| <= ColsSize(cols)
    ensures forall c | c in cols :: ColSize(c) <= ColsSize(cols)
  {
    if cols != [] {
      SizeBoundsParts(cols[1..]);
      forall c | c in cols ensures ColSize(c) <= ColsSize(cols) {
        assert c == cols[0] || c in cols[1..];
      }
    }
  }

  /** A summary that fits 64 KB reads back as itself: no length can have been truncated. */
  lemma {:induction false} FittingRoundTrip(cols: seq<ColSummary>, rest: Bytes)
    requires |Encode(cols)| < 0x1_0000
    ensures Decode(Encode(cols) + rest) == Some(cols)
    ensures Decode(Encode(cols)) == Some(cols)
  {
    EncodedSize(cols);
    SizeBoundsParts(cols);
    RoundTrip(cols, rest);
    RoundTrip(cols, []);
    assert Encode(cols) + [] == Encode(cols);
  }

  /** So equal bytes on a page mean equal summaries. */
  lemma {:induction false} EncodeInjective(a: seq<ColSummary>, b: seq<ColSummary>)
    requires |Encode(a)| < 0x1_0000 && Encode(a) == Encode(b)
    ensures a == b
  {
    FittingRoundTrip(a, []);
    FittingRoundTrip(b, []);
  }

  lemma {:induction false} EncodeColsAppend(a: seq<ColSummary>, c: ColSummary)
    ensures EncodeCols(a + [c]) == EncodeCols(a) + EncodeCol(c)
  {
    if a == [] {
      assert EncodeCols([c]) == EncodeCol(c) + EncodeCols([c][1..]);
    } else {
      assert (a + [c])[1..] == a[1..] + [c];
      EncodeColsAppend(a[1..], c);
    }
  }

  // ---- the code ----------------------------------------------------------------------

  method PushCol(c: ColSummary, start: Bytes) returns (out: Bytes)
    ensures out == start + EncodeCol(c)
  {
    out := start + Le16(Unsigned(c.attnum));
    out := out + [if c.overlap then 1 else 0];
    var flags := 0;
    if c.hasNulls { flags := flags + 1; }
    if c.allNulls { flags := flags + 2; }
    if c.unbounded { flags := flags + 4; }
    out := out + [flags];
    out := out + Le32(c.collation);
    out := out + EncodeStr(c.typeName);
    out := out + EncodeOptStr(c.min);
    out := out + EncodeOptStr(c.max);
    Pushed(start, Le16(Unsigned(c.attnum)), [if c.overlap then 1 else 0], [flags], Le32(c.collation),
           EncodeStr(c.typeName), EncodeOptStr(c.min), EncodeOptStr(c.max));
    hide Le16, Le32, EncodeStr, EncodeOptStr, Unsigned;
  }

  lemma {:induction false} Pushed(start: Bytes, attnum: Bytes, overlap: Bytes, flags: Bytes, collation: Bytes,
                                  name: Bytes, min: Bytes, max: Bytes)
    ensures start + attnum + overlap + flags + collation + name + min + max
         == start + (attnum + overlap + flags + collation + (name + min + max))
  {
  }

  /** `serialize`: pushes the columns' bytes one after the other. */
  method Serialize(cols: seq<ColSummary>) returns (out: Bytes)
    ensures out == Encode(cols)
  {
    hide EncodeCol;
    out := [SUMMARY_VERSION];
    out := out + Le16(|cols| % 0x1_0000);
    ghost var head := out;
    for i := 0 to |cols|
      invariant out == head + EncodeCols(cols[..i])
    {
      EncodeColsAppend(cols[..i], cols[i]);
      assert cols[..i + 1] == cols[..i] + [cols[i]];
      out := PushCol(cols[i], out);
    }
    assert cols[..|cols|] == cols;
  }

  /** A cursor over a byte string. A read that fails may leave the cursor after a length prefix. */
  class Reader {
    const buf: Bytes
    var pos: nat

    ghost predicate Valid() reads this { pos <= |buf| }

    ghost function Rest(): Bytes
      requires Valid()
      reads this
    { buf[pos..] }

    /** The cursor moved exactly as the parser `p` says, or the parser failed. */
    ghost predicate Moved<T>(p: Parsed<T>)
      reads this
    { Valid() && (p.Got? ==> Rest() == p.rest) }

    constructor (buf: Bytes)
      ensures Valid() && this.buf == buf && Rest() == buf
    {
      this.buf := buf;
      pos := 0;
    }

    method U8() returns (r: Option<Byte>)
      requires Valid()
      modifies this
      ensures Moved(old(DecodeU8(Rest()))) && r == ParsedValue(old(DecodeU8(Rest())))
    {
      if pos >= |buf| { return None; }
      r := Some(buf[pos]);
      pos := pos + 1;
    }

    method U16() returns (r: Option<nat>)
      requires Valid()
      modifies this
      ensures Moved(old(DecodeU16(Rest()))) && r == ParsedValue(old(DecodeU16(Rest())))
    {
      if pos + 2 > |buf| { return None; }
      r := Some(Combine16(buf[pos], buf[pos + 1]));
      pos := pos + 2;
    }

    method U32() returns (r: Option<Oid>)
      requires Valid()
      modifies this
      ensures Moved(old(DecodeU32(Rest()))) && r == ParsedValue(old(DecodeU32(Rest())))
    {
      if pos + 4 > |buf| { return None; }
      r := Some(Combine16(buf[pos], buf[pos + 1]) + 0x1_0000 * Combine16(buf[pos + 2], buf[pos + 3]));
      pos := pos + 4;
    }

    method Str() returns (r: Option<Text>)
      requires Valid()
      modifies this
      ensures Moved(old(DecodeStr(Rest()))) && r == ParsedValue(old(DecodeStr(Rest())))
    {
      var len := U16();
      if len.None? || pos + len.value > |buf| { return None; }
      var bytes := buf[pos..pos + len.value];
      assert bytes == Rest()[..len.value];
      pos := pos + len.value;
      r := if ValidUtf8(bytes) then Some(bytes) else None;
    }

    method OptStr() returns (r: Option<Option<Text>>)
      requires Valid()
      modifies this
      ensures Moved(old(DecodeOptStr(Rest()))) && r == ParsedValue(old(DecodeOptStr(Rest())))
    {
      var tag := U8();
      if tag.None? { return None; }
      if tag.value == 0 { return Some(None); }
      var s := Str();
      r := if s.None? then None else Some(s);
    }

    method ReadHead() returns (r: Option<Head>)
      requires Valid()
      modifies this
      ensures Moved(old(DecodeHead(Rest()))) && r == ParsedValue(old(DecodeHead(Rest())))
    {
      var attnum := U16();
      if attnum.None? { return None; }
      var overlap := U8();
      if overlap.None? { return None; }
      var flags := U8();
      if flags.None? { return None; }
      var collation := U32();
      if collation.None? { return None; }
      r := Some(Head(Signed(attnum.value), overlap.value != 0, flags.value, collation.value));
    }

    method ReadStrings() returns (r: Option<Strings>)
      requires Valid()
      modifies this
      ensures Moved(old(DecodeStrings(Rest()))) && r == ParsedValue(old(DecodeStrings(Rest())))
    {
      var typeName := Str();
      if typeName.None? { return None; }
      var min := OptStr();
      if min.None? { return None; }
      var max := OptStr();
      if max.None? { return None; }
      r := Some(Strings(typeName.value, min.value, max.value));
    }

    method Col() returns (r: Option<ColSummary>)
      requires Valid()
      modifies this
      ensures Moved(old(DecodeCol(Rest()))) && r == ParsedValue(old(DecodeCol(Rest())))
    {
      var head := ReadHead();
      if head.None? { return None; }
      var strings := ReadStrings();
      if strings.None? { return None; }
      r := Some(Column(head.value, strings.value));
    }

    method Cols(n: nat) returns (r: Option<seq<ColSummary>>)
      requires Valid()
      modifies this
      ensures Valid() && r == ParsedValue(old(DecodeCols(n, Rest())))
    {
      hide DecodeCol;
      var cols := [];
      ghost var all := DecodeCols(n, Rest());
      assert all.Got? ==> [] + all.value == all.value;
      for i := 0 to n
        invariant Valid() && |cols| == i
        invariant all == Prepend(cols, DecodeCols(n - i, Rest()))
      {
        ghost var rest := Rest();
        var c := Col();
        if c.None? {
          assert DecodeCols(n - i, rest).Fail?;
          return None;
        }
        DecodeColsStep(n - i, rest, cols, c.value, Rest());
        cols := cols + [c.value];
      }
      assert cols + [] == cols;
      r := Some(cols);
    }
  }

  ghost function Prepend(cols: seq<ColSummary>, p: Parsed<seq<ColSummary>>): Parsed<seq<ColSummary>> {
    if p.Got? then Got(cols + p.value, p.rest) else Fail
  }

  lemma {:induction false} DecodeColsStep(n: nat, s: Bytes, cols: seq<ColSummary>, c: ColSummary, rest: Bytes)
    requires n > 0 && DecodeCol(s) == Got(c, rest)
    ensures Prepend(cols, DecodeCols(n, s)) == Prepend(cols + [c], DecodeCols(n - 1, rest))
  {
    hide DecodeCol;
    var tail := DecodeCols(n - 1, rest);
    if tail.Got? {
      assert (cols + [c]) + tail.value == cols + ([c] + tail.value);
    }
  }

  method Deserialize(buf: Bytes) returns (r: Option<seq<ColSummary>>)
    ensures r == Decode(buf)
  {
    hide DecodeCols, CountFits;
    var reader := new Reader(buf);
    var version := reader.U8();
    if version.None? || version.value != SUMMARY_VERSION { return None; }
    var ncols := reader.U16();
    if ncols.None? { return None; }
    assert reader.Rest() == buf[3..];
    r := reader.Cols(ncols.value);
  }
}
