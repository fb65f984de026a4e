/** The index's metapage as a page buffer: `page_blob`, `put_blob` and their callers in index_storage.rs. */
module MetaPage {
  import opened Base
  import opened Format

  const BLCKSZ: nat := 8192
  /** `PageGetContents`: the page header is 24 bytes. */
  const CONTENTS: nat := 24
  const MAX_BLOB_LEN: nat := BLCKSZ - 64

  const PD_LOWER: nat := 12
  const PD_UPPER: nat := 14
  const PD_SPECIAL: nat := 16
  const PD_PAGESIZE_VERSION: nat := 18

  function HeaderField(page: Bytes, at: nat): nat
    requires at + 2 <= |page|
  {
    Combine16(page[at], page[at + 1])
  }

  /** The length prefix. */
  function BlobLen(page: Bytes): nat
    requires |page| == BLCKSZ
  {
    HeaderField(page, CONTENTS) + 0x1_0000 * HeaderField(page, CONTENTS + 2)
  }

  /** What `page_blob` reads on a page. */
  function PageBlob(page: Bytes): Option<Bytes>
    requires |page| == BLCKSZ
  {
    if HeaderField(page, PD_UPPER) == 0 then None else
    var len := BlobLen(page);
    if len == 0 || len > MAX_BLOB_LEN then None
    else Some(page[CONTENTS + 4..CONTENTS + 4 + len])
  }

  /** A blob of no bytes reads back as no blob. */
  function Stored(data: Bytes): Option<Bytes> {
    if data == [] then None else Some(data)
  }

  /** The bytes a write of `len` bytes may touch on a page in use. */
  predicate InBlob(i: nat, len: nat) {
    PD_LOWER <= i < PD_LOWER + 2 || CONTENTS <= i < CONTENTS + 4 + len
  }

  lemma {:induction false} ReadsBack(page: Bytes, data: Bytes)
    requires |page| == BLCKSZ && |data| <= MAX_BLOB_LEN && HeaderField(page, PD_UPPER) != 0
    requires forall i :: 0 <= i < 4 ==> page[CONTENTS + i] == Le32(|data|)[i]
    requires forall i :: 0 <= i < |data| ==> page[CONTENTS + 4 + i] == data[i]
    ensures PageBlob(page) == Stored(data)
  {
    LenReadsBack(page, |data|);
    hide HeaderField, BlobLen, Le32;
    assert page[CONTENTS + 4..CONTENTS + 4 + |data|] == data;
  }

  /** On a page of 8192 bytes in use: a length of four bytes from byte 24 on, then a blob of at most 8128 bytes. */
  lemma {:induction false} Layout(page: Bytes)
    requires |page| == 8192 && page[14] as int + 0x100 * page[15] as int != 0
    ensures var n :=
              page[24] as int + 0x100 * page[25] as int + 0x1_0000 * page[26] as int + 0x100_0000 * page[27] as int;
      PageBlob(page) == if 0 < n <= 8128 then Some(page[28..28 + n]) else None
  {
  }

  lemma {:induction false} LenReadsBack(page: Bytes, n: Oid)
    requires |page| == BLCKSZ && forall i :: 0 <= i < 4 ==> page[CONTENTS + i] == Le32(n)[i]
    ensures BlobLen(page) == n
  {
    U32Inverse(n, []);
    assert Le32(n) + [] == Le32(n);
    var b := Le32(n);
    hide Le32;
    assert page[CONTENTS + 0] == b[0] && page[CONTENTS + 1] == b[1];
    assert page[CONTENTS + 2] == b[2] && page[CONTENTS + 3] == b[3];
  }

  datatype WriteResult = Written | Unchanged | TooLong

  /** Block 0 of the index, or an index of no blocks. */
  class Page {
    var nblocks: nat
    var page: array<Byte>

    ghost predicate Valid()
      reads this
    { page.Length == BLCKSZ }

    /** What the next `read_blob` returns. */
    ghost function Blob(): Option<Bytes>
      requires Valid()
      reads this, page
    { if nblocks == 0 then None else PageBlob(page[..]) }

    constructor ()
      ensures Valid() && fresh(page) && nblocks == 0 && Blob() == None
    {
      nblocks := 0;
      page := new Byte[BLCKSZ](_ => 0);
    }

    method ReadBlob() returns (data: Option<Bytes>)
      requires Valid()
      ensures data == Blob()
    {
      if nblocks == 0 { return None; }
      data := CurrentBlob();
    }

    method CurrentBlob() returns (data: Option<Bytes>)
      requires Valid()
      ensures data == PageBlob(page[..])
    {
      hide Combine16;
      ghost var bytes := page[..];
      if Combine16(page[PD_UPPER], page[PD_UPPER + 1]) == 0 {
        assert HeaderField(bytes, PD_UPPER) == 0;
        return None;
      }
      var lo := Combine16(page[CONTENTS], page[CONTENTS + 1]);
      var hi := Combine16(page[CONTENTS + 2], page[CONTENTS + 3]);
      assert HeaderField(bytes, CONTENTS) == lo && HeaderField(bytes, CONTENTS + 2) == hi;
      var len := lo + 0x1_0000 * hi;
      assert HeaderField(bytes, PD_UPPER) != 0;
      hide HeaderField;
      if len == 0 || len > MAX_BLOB_LEN { return None; }
      data := Some(page[CONTENTS + 4..CONTENTS + 4 + len]);
    }

    /** `PageInit` with no special space. */
    method PageInit()
      requires Valid()
      modifies page
      ensures HeaderField(page[..], PD_LOWER) == CONTENTS
      ensures HeaderField(page[..], PD_UPPER) == BLCKSZ
    {
      forall i | 0 <= i < BLCKSZ { page[i] := 0; }
      page[PD_LOWER] := CONTENTS;
      page[PD_UPPER + 1] := BLCKSZ / 0x100;
      page[PD_SPECIAL + 1] := BLCKSZ / 0x100;
      page[PD_PAGESIZE_VERSION] := 4;
      page[PD_PAGESIZE_VERSION + 1] := BLCKSZ / 0x100;
    }

    /** Generic WAL applies the page image with the hole between pd_lower and pd_upper zeroed. */
    method FinishXLog()
      requires Valid()
      modifies page
      ensures forall i :: 0 <= i < BLCKSZ ==>
        page[i] == if old(HeaderField(page[..], PD_LOWER)) <= i < old(HeaderField(page[..], PD_UPPER))
                   then 0 else old(page[i])
    {
      var lower := Combine16(page[PD_LOWER], page[PD_LOWER + 1]);
      var upper := Combine16(page[PD_UPPER], page[PD_UPPER + 1]);
      forall i | 0 <= i < BLCKSZ && lower <= i < upper { page[i] := 0; }
    }

    /**
     * `put_blob`. The blob reads back whatever the page held before, and on a page that was in
     * use only pd_lower, the length and the blob's own bytes change.
     */
    method PutBlob(isNew: bool, data: Bytes)
      requires Valid() && |data| <= MAX_BLOB_LEN
      modifies page
      ensures PageBlob(page[..]) == Stored(data)
      ensures !isNew && old(HeaderField(page[..], PD_UPPER)) != 0 ==>
        forall i :: 0 <= i < BLCKSZ && !InBlob(i, |data|) ==> page[i] == old(page[i])
    {
      hide Le32, PageBlob;
      if isNew || Combine16(page[PD_UPPER], page[PD_UPPER + 1]) == 0 {
        PageInit();
      }
      var len := Le32(|data|);
      forall i | 0 <= i < 4 { page[CONTENTS + i] := len[i]; }
      forall i | 0 <= i < |data| { page[CONTENTS + 4 + i] := data[i]; }
      page[PD_LOWER], page[PD_LOWER + 1] := page[PD_UPPER], page[PD_UPPER + 1];
      FinishXLog();
      ReadsBack(page[..], data);
    }

    /** `write_blob`: extends an empty index by one zeroed block. */
    method WriteBlob(data: Bytes) returns (r: WriteResult)
      requires Valid()
      modifies this, page
      ensures Valid() && (page == old(page) || fresh(page))
      ensures r == if |data| > MAX_BLOB_LEN then TooLong else Written
      ensures Blob() == if r == TooLong then old(Blob()) else Stored(data)
    {
      if |data| > MAX_BLOB_LEN { return TooLong; }
      var isNew := nblocks == 0;
      if isNew {
        page := new Byte[BLCKSZ](_ => 0);
        nblocks := 1;
      }
      PutBlob(isNew, data);
      r := Written;
    }

    /** `replace_blob_if`: compare and write under one exclusive lock. */
    method ReplaceBlobIf(expected: Bytes, data: Bytes) returns (r: WriteResult)
      requires Valid()
      modifies page
      ensures r == if |data| > MAX_BLOB_LEN then TooLong
                   else if old(Blob()) == Some(expected) then Written else Unchanged
      ensures Blob() == if r == Written then Stored(data) else old(Blob())
      ensures r != Written ==> page[..] == old(page[..])
    {
      if |data| > MAX_BLOB_LEN { return TooLong; }
      if nblocks == 0 { return Unchanged; }
      var current := CurrentBlob();
      if current == Some(expected) {
        PutBlob(false, data);
        return Written;
      }
      return Unchanged;
    }
  }
}
