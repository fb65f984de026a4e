/** A small world of types in which every law holds, with sessions that do not all read alike. */
module World {
  import opened Base
  import opened Extents
  import opened Format
  import opened Coverage
  import opened Build
  import opened Protocol
  import opened Sessions

  // ---- numbers, ranges and shapes ------------------------------------------------------------

  /** Only the digits print. */
  function Output(d: Datum): Option<Text> {
    if 0 <= d <= 9 then Some(Digit(d)) else None
  }

  function Digit(d: Datum): Text
    requires 0 <= d <= 9
  {
    AsciiIsValid([48 + d]);
    [48 + d]
  }

  predicate IsDigit(text: Text) {
    |text| == 1 && 48 <= text[0] <= 57
  }

  /** Two characters are read by the date field order; they are never stored. */
  function Input(order: DateOrder, text: Text): Option<Datum> {
    if IsDigit(text) then Some(text[0] - 48)
    else if |text| == 2 then Some(text[if order == Dmy then 0 else 1])
    else None
  }

  /** Collation 1 sorts backwards. */
  const BACKWARDS: Oid := 1

  function Rank(c: Oid, d: Datum): real {
    if c == BACKWARDS then -(d as real) else d as real
  }

  function Cmp(c: Oid, a: Datum, b: Datum): int {
    if c == BACKWARDS then b - a else a - b
  }

  /** The values of the range and shape types: everything up to `d`, or nothing. */
  function UpTo(d: Datum): Extent {
    Box(Span(MinusInfinity, At(d as real, true)), LINE)
  }

  function DigitExtent(d: Datum): Extent {
    if 0 <= d <= 9 then UpTo(d) else Nowhere
  }

  function MaxOf(a: Datum, b: Datum): Datum {
    if a < b then b else a
  }

  function ExtentText(e: Extent): Option<Text> {
    if e.Box? && e.x.hi.At? && 0 <= e.x.hi.at.Floor <= 9 then Some(Digit(e.x.hi.at.Floor)) else None
  }

  function HullText(ds: seq<Datum>): Option<Text> {
    ExtentText(JoinAll(seq(|ds|, i requires 0 <= i < |ds| => DigitExtent(ds[i]))))
  }

  function InputIn(order: DateOrder): Text -> Option<Datum> {
    (text: Text) => Input(order, text)
  }

  const NUMBER := TypeOps(8, 'b', [], Output, InputIn(Mdy), Some(Cmp), MaxOf, HullText, Rank, DigitExtent, IsDigit)
  const RANGE := NUMBER.(typlen := -1, typtype := 'r', cmp := None, extent := UpTo)
  const SHAPE := NUMBER.(typlen := -1, name := GEOMETRY, cmp := None)

  // ---- strings of one letter, and ranges of them -----------------------------------------------

  function Letters(n: nat): (t: Text)
    ensures |t| == n
  {
    var s: Bytes := seq(n, _ => 120);
    AsciiIsValid(s);
    s
  }

  function LettersOut(d: Datum): Option<Text> {
    if 0 <= d then Some(Letters(d)) else None
  }

  predicate IsLetters(text: Text) {
    text == Letters(|text|)
  }

  function LettersIn(text: Text): Option<Datum> {
    if IsLetters(text) then Some(|text|) else None
  }

  /** `(,x..x)` */
  function Below(n: nat): (t: Text)
    ensures |t| == n + 3
  {
    var s: Bytes := [40, 44] + seq(n, _ => 120) + [41];
    AsciiIsValid(s);
    s
  }

  function BelowOut(d: Datum): Option<Text> {
    if 0 <= d then Some(Below(d)) else None
  }

  predicate IsBelow(text: Text) {
    |text| >= 3 && text == Below(|text| - 3)
  }

  function BelowIn(text: Text): Option<Datum> {
    if IsBelow(text) then Some(|text| - 3) else None
  }

  function NoExtent(ds: seq<Datum>): Option<Text> {
    None
  }

  const STRING := TypeOps(-1, 'b', [], LettersOut, LettersIn, Some(Cmp), MaxOf, NoExtent, Rank, UpTo, IsLetters)
  const STRINGS_BELOW := TypeOps(-1, 'r', [], BelowOut, BelowIn, None, MaxOf, NoExtent, Rank, UpTo, IsBelow)

  // ---- the world -------------------------------------------------------------------------------

  const RANGE_TYPE: Oid := 1
  const SHAPE_TYPE: Oid := 2
  const STRING_TYPE: Oid := 3
  const BELOW_TYPE: Oid := 4

  function TypeOf(o: Oid): TypeOps {
    match o
    case 1 => RANGE
    case 2 => SHAPE
    case 3 => STRING
    case 4 => STRINGS_BELOW
    case _ => NUMBER
  }

  /** The same types, as a session with the settings `s` reads them. */
  function SeenBy(s: Settings): Types {
    (o: Oid) => if o == STRING_TYPE || o == BELOW_TYPE then TypeOf(o) else TypeOf(o).(input := InputIn(s.dateOrder))
  }

  const PG_CATALOG_TEXT: Bytes := [112, 103, 95, 99, 97, 116, 97, 108, 111, 103, 46, 116, 101, 120, 116]
  const PUBLIC_TEXTRANGE: Bytes := [112, 117, 98, 108, 105, 99, 46, 116, 101, 120, 116, 114, 97, 110, 103, 101]

  lemma {:induction false} Ascii(s: Bytes)
    requires forall i :: 0 <= i < |s| ==> s[i] < 0x80
    ensures ValidUtf8(s)
  {
    hide ValidUtf8;
    AsciiIsValid(s);
  }

  lemma {:induction false} NamesValid()
    ensures ValidUtf8(PG_CATALOG_TEXT) && ValidUtf8(PUBLIC_TEXTRANGE) && ValidUtf8(DOT_GEOMETRY)
  {
    hide ValidUtf8;
    Ascii(PG_CATALOG_TEXT);
    Ascii(PUBLIC_TEXTRANGE);
    Ascii(DOT_GEOMETRY);
  }

  function NameOf(o: Oid): Text {
    NamesValid();
    match o
    case 2 => DOT_GEOMETRY
    case 3 => PG_CATALOG_TEXT
    case 4 => PUBLIC_TEXTRANGE
    case _ => []
  }

  lemma {:induction false} HullIsDigit(ds: seq<Datum>)
    ensures var e := Hull(SHAPE, ds); e.Nowhere? || exists d :: 0 <= d <= 9 && e == UpTo(d)
  {
    var es := ExtentsOf(SHAPE, ds);
    if ds != [] {
      var init := ds[..|ds| - 1];
      HullIsDigit(init);
      assert es[..|es| - 1] == ExtentsOf(SHAPE, init);
      var e, last := Hull(SHAPE, init), ds[|ds| - 1];
      if e.Box? && 0 <= last <= 9 {
        var d :| 0 <= d <= 9 && e == UpTo(d);
        assert Hull(SHAPE, ds) == UpTo(MaxOf(d, last));
      } else if 0 <= last <= 9 {
        assert Hull(SHAPE, ds) == UpTo(last);
      }
    }
  }

  lemma {:induction false} ShapeHull(ds: seq<Datum>)
    ensures HullText(ds) == ExtentText(Hull(SHAPE, ds))
    ensures HullText(ds).None? <==> Hull(SHAPE, ds).Nowhere?
    ensures HullText(ds).Some? ==>
      IsDigit(HullText(ds).value) && DigitExtent(HullText(ds).value[0] - 48) == Hull(SHAPE, ds)
  {
    assert seq(|ds|, i requires 0 <= i < |ds| => DigitExtent(ds[i])) == ExtentsOf(SHAPE, ds);
    HullIsDigit(ds);
  }

  lemma {:induction false} ShapeLawful()
    ensures Lawful(SHAPE)
  {
    ShapeExtents();
    hide HullText, Hull, ExtentText, ExtentLaw;
  }

  lemma {:induction false} ShapeExtents()
    ensures ExtentLaw(SHAPE)
  {
    hide HullText, Hull, ExtentText, DigitExtent, Output;
    forall ds: seq<Datum>
      ensures HullText(ds) == ExtentText(Hull(SHAPE, ds))
      ensures HullText(ds).None? <==> Hull(SHAPE, ds).Nowhere?
      ensures HullText(ds).Some? ==>
        IsDigit(HullText(ds).value) && DigitExtent(HullText(ds).value[0] - 48) == Hull(SHAPE, ds)
    {
      ShapeHull(ds);
    }
  }

  lemma {:induction false} NumberLawful()
    ensures Lawful(NUMBER)
  {
    KindsOf(0);
    NumberTexts();
    hide HullText, ExtentText, Hull, TextLaw, TypeOps.Kind, Output;
  }

  lemma {:induction false} DigitReads(order: DateOrder, d: Datum)
    requires 0 <= d <= 9
    ensures IsDigit(Digit(d)) && Input(order, Digit(d)) == Some(d)
  {
  }

  /** A type whose values are the digits it stores. */
  lemma {:induction false} DigitTexts(t: TypeOps)
    requires t.output == Output && t.input == InputIn(Mdy) && t.writes == IsDigit
    ensures TextLaw(t)
  {
    forall d: Datum | 0 <= d <= 9 ensures IsDigit(Digit(d)) && Input(Mdy, Digit(d)) == Some(d) {
      DigitReads(Mdy, d);
    }
    hide Digit;
  }

  lemma {:induction false} NumberTexts()
    ensures TextLaw(NUMBER) && TextLaw(RANGE)
  {
    hide TextLaw, Output, HullText, ExtentText, Hull, Rank, Digit;
    DigitTexts(NUMBER);
    DigitTexts(RANGE);
  }

  lemma {:induction false} RangeLawful()
    ensures Lawful(RANGE)
  {
    KindsOf(RANGE_TYPE);
    NumberTexts();
    hide HullText, ExtentText, Hull, TextLaw, TypeOps.Kind, Output;
  }

  lemma {:induction false} StringLawful()
    ensures Lawful(STRING)
  {
    hide Letters;
  }

  lemma {:induction false} BelowReads(d: Datum)
    requires 0 <= d
    ensures IsBelow(Below(d)) && BelowIn(Below(d)) == Some(d)
  {
  }

  lemma {:induction false} BelowPrints(text: Text)
    ensures BelowIn(text).Some? ==> BelowOut(BelowIn(text).value).Some?
  {
    hide Below;
  }

  /** A type whose values are the ranges it stores. */
  lemma {:induction false} RangeTexts(t: TypeOps)
    requires t.output == BelowOut && t.input == BelowIn && t.writes == IsBelow
    ensures TextLaw(t)
  {
    forall d: Datum | 0 <= d ensures IsBelow(Below(d)) && BelowIn(Below(d)) == Some(d) {
      BelowReads(d);
    }
    forall text: Text ensures BelowIn(text).Some? ==> BelowOut(BelowIn(text).value).Some? {
      BelowPrints(text);
    }
    hide Below, IsBelow, BelowIn;
  }

  lemma {:induction false} BelowTexts()
    ensures TextLaw(STRINGS_BELOW)
  {
    hide TextLaw, Below, IsBelow, BelowIn, BelowOut, Rank, UpTo;
    RangeTexts(STRINGS_BELOW);
  }

  lemma {:induction false} BelowLawful()
    ensures Lawful(STRINGS_BELOW)
  {
    BelowTexts();
    KindsOf(BELOW_TYPE);
    hide Below, TextLaw, TypeOps.Kind, BelowOut, BelowIn, IsBelow;
  }

  /** The laws asked of types are consistent, for types of every kind. */
  lemma {:induction false} TypesLawful()
    ensures LawfulTypes(TypeOf) && NamesLaw(TypeOf, NameOf)
    ensures forall s: Settings :: AlikeTypes(TypeOf, SeenBy(s))
  {
    ShapeLawful();
    NumberLawful();
    RangeLawful();
    StringLawful();
    BelowLawful();
    NamesHold();
    hide Lawful;
    forall s: Settings, o: Oid ensures Alike(TypeOf(o), SeenBy(s)(o)) {
      if o == STRING_TYPE || o == BELOW_TYPE {
        SelfAlike(TypeOf(o));
      } else {
        ReadElsewhere(TypeOf(o), InputIn(s.dateOrder));
      }
    }
  }

  lemma {:induction false} NamesHold()
    ensures NamesLaw(TypeOf, NameOf)
  {
    NamesEnd();
    hide NamesGeometry, Letters, Below, HullText;
    forall o: Oid ensures NamesGeometry(NameOf(o)) == (TypeOf(o).Kind() == Geometry) {
      KindsOf(o);
    }
  }

  lemma {:induction false} NamesEnd()
    ensures forall o: Oid :: NamesGeometry(NameOf(o)) == (o == SHAPE_TYPE)
  {
    assert PG_CATALOG_TEXT[|PG_CATALOG_TEXT| - 9..][8] != DOT_GEOMETRY[8];
    assert PUBLIC_TEXTRANGE[|PUBLIC_TEXTRANGE| - 9..][8] != DOT_GEOMETRY[8];
    assert DOT_GEOMETRY[|DOT_GEOMETRY| - |DOT_GEOMETRY|..] == DOT_GEOMETRY;
    hide ValidUtf8;
  }

  lemma {:induction false} KindsOf(o: Oid)
    ensures TypeOf(o).Kind() == match o
      case 1 => Range
      case 2 => Geometry
      case 4 => Range
      case _ => Scalar
  {
    hide Letters, Below, HullText;
    assert [] != GEOMETRY;
  }

  lemma {:induction false} SelfAlike(t: TypeOps)
    requires Lawful(t)
    ensures Alike(t, t)
  {
    hide Lawful;
  }

  /** Reading texts that are never stored otherwise changes nothing that matters. */
  lemma {:induction false} ReadElsewhere(t: TypeOps, f: Text -> Option<Datum>)
    requires Lawful(t) && forall text: Text | t.writes(text) :: f(text) == t.input(text)
    ensures Alike(t, t.(input := f))
  {
    var u := t.(input := f);
    forall ds: seq<Datum> ensures Hull(u, ds) == Hull(t, ds) {
      assert ExtentsOf(u, ds) == ExtentsOf(t, ds);
    }
    hide Hull;
  }

  /** Yet sessions with different date field orders read some texts differently. */
  lemma {:induction false} SessionsDiffer(s: Settings)
    ensures var text := Letters(1) + [121];
      ValidUtf8(text) && SeenBy(s.(dateOrder := Dmy))(0).input(text) != SeenBy(s.(dateOrder := Mdy))(0).input(text)
  {
    AsciiIsValid(Letters(1) + [121]);
  }

  // ---- indexes on one or two columns ----------------------------------------------------------

  lemma {:induction false} SummarizedOne(a: IndexAttr)
    requires a.attnum > 0
    ensures Positions([a]) == [0] && Summarized([a]) == [a]
  {
    assert [a][..0] == [];
    assert Positions([a][..0]) == [];
  }

  lemma {:induction false} PositionsSnoc(attrs: seq<IndexAttr>, a: IndexAttr)
    ensures Positions(attrs + [a]) == Positions(attrs) + if a.attnum > 0 then [|attrs|] else []
  {
    assert (attrs + [a])[..|attrs|] == attrs;
  }

  lemma {:induction false} AllSummarized(attrs: seq<IndexAttr>)
    requires |Positions(attrs)| == |attrs| && forall k :: 0 <= k < |attrs| ==> Positions(attrs)[k] == k
    ensures Summarized(attrs) == attrs
  {
    hide Positions;
  }

  lemma {:induction false} Joined(attrs: seq<IndexAttr>, a: IndexAttr, b: IndexAttr)
    requires attrs == [a] + [b] && a.attnum > 0 && b.attnum > 0
    ensures |attrs| == 2 && attrs[0] == a && attrs[1] == b
    ensures |Positions(attrs)| == 2 && Positions(attrs)[0] == 0 && Positions(attrs)[1] == 1
  {
    SummarizedOne(a);
    PositionsSnoc([a], b);
    hide Positions;
  }

  lemma {:induction false} SummarizedPair(a: IndexAttr, b: IndexAttr)
    requires a.attnum > 0 && b.attnum > 0
    ensures Positions([a, b]) == [0, 1] && Summarized([a, b]) == [a, b]
  {
    hide Positions, Summarized;
    var attrs := [a, b];
    assert attrs == [a] + [b];
    Joined(attrs, a, b);
    AllSummarized(attrs);
  }

  lemma {:induction false} OneBuilt(types: Types, names: Oid -> Text, a: IndexAttr, tuples: seq<seq<Option<Datum>>>)
    requires a.attnum > 0
    ensures Built(types, names, [a], tuples) == [BuiltCol(types(a.typ), a, names(a.typ), ColumnAt(tuples, 0))]
  {
    SummarizedOne(a);
    hide BuiltCol, Positions, Summarized;
  }

  lemma {:induction false} PairBuilt(types: Types, names: Oid -> Text, a: IndexAttr, b: IndexAttr,
                                     tuples: seq<seq<Option<Datum>>>)
    requires a.attnum > 0 && b.attnum > 0
    ensures Built(types, names, [a, b], tuples)
         == [BuiltCol(types(a.typ), a, names(a.typ), ColumnAt(tuples, 0)),
             BuiltCol(types(b.typ), b, names(b.typ), ColumnAt(tuples, 1))]
  {
    SummarizedPair(a, b);
    hide BuiltCol, Positions, Summarized;
  }
}
