/**
 * `StoredStringArray` (segment.go): an array of byte strings kept in two
 * files. The header file holds 16 bytes per item: the item's offset in
 * the data file (high 32 bits) and its length (low 32 bits) as one
 * little-endian 64-bit word, then a 64-bit "extra" chosen by the writer.
 * The data file holds the items back to back.
 *
 * The two fields are the contents of the two files. Files are opened
 * without truncation, so a write that produces fewer bytes than a file
 * already holds leaves the old tail in place (`Overwrite`).
 */
module Stored {
  import opened Bytes

  const TWO_32: nat := 0x1_0000_0000
  const TWO_64: nat := 0x1_0000_0000_0000_0000
  /** The most entries `bsearch` can reach: past them `uint32(mid*16)` wraps to an earlier entry. */
  const MAX_SEARCHED: nat := 0x1000_0000

  // ---------------------------------------------------------------------
  // The layout `write` produces

  /** Every item is shorter than 4 GiB, so that its length fits the low half of a word. */
  predicate Fits(items: seq<Bytes>) {
    forall k :: 0 <= k < |items| ==> |items[k]| < TWO_32
  }

  /** The data file after the first n items: their bytes back to back. */
  function DataOf(items: seq<Bytes>, n: nat): (r: Bytes)
    requires n <= |items|
  {
    if n == 0 then [] else DataOf(items, n - 1) + items[n - 1]
  }

  /** `uint64(off)<<32 | uint64(len)` for a length that fits 32 bits. */
  function OffLen(off: U32, len: nat): (r: U64)
    requires len < TWO_32
    ensures r / TWO_32 == off && r % TWO_32 == len
  {
    off * TWO_32 + len
  }

  /**
   * The header file after the first n items: per item, its offset
   * (modulo 2^32, as `off` is a uint32) and length, then its extra.
   */
  function HeaderOf(items: seq<Bytes>, extras: seq<U64>, n: nat): (r: Bytes)
    requires |items| == |extras| && Fits(items) && n <= |items|
    ensures |r| == 16 * n
  {
    if n == 0 then []
    else HeaderOf(items, extras, n - 1) + Le64(OffLen(|DataOf(items, n - 1)| % TWO_32, |items[n - 1]|)) + Le64(extras[n - 1])
  }

  /** What a file holds after `w` is written from its start without truncating it. */
  function Overwrite(old_: Bytes, w: Bytes): (r: Bytes)
    ensures |old_| <= |w| ==> r == w
    ensures |r| >= |w| && r[..|w|] == w
  {
    if |old_| > |w| then w + old_[|w|..] else w
  }

  // ---------------------------------------------------------------------
  // Reading the files back

  /** `count`: the number of whole 16-byte header entries. */
  function Count(header: Bytes): (r: nat)
    ensures 16 * r <= |header| < 16 * r + 16
  {
    |header| / 16
  }

  /** Offset and length of item k, from the high and low half of its first word. */
  function OffAt(header: Bytes, k: nat): (r: U32)
    requires k < Count(header)
    ensures r == GetUint64(header, 16 * k) / TWO_32
  {
    GetUint64(header, 16 * k) / TWO_32
  }

  function LenAt(header: Bytes, k: nat): (r: U32)
    requires k < Count(header)
    ensures r == GetUint64(header, 16 * k) % TWO_32
  {
    GetUint64(header, 16 * k) % TWO_32
  }

  /** The extra stored with item k. */
  function ExtraAt(header: Bytes, k: nat): U64
    requires k < Count(header)
  {
    GetUint64(header, 16 * k + 8)
  }

  /** Item k lies inside the data file (and `off+len` does not wrap as a uint32). */
  predicate InData(header: Bytes, data: Bytes, k: nat)
    requires k < Count(header)
  {
    OffAt(header, k) + LenAt(header, k) < TWO_32 && OffAt(header, k) + LenAt(header, k) <= |data|
  }

  function ItemAt(header: Bytes, data: Bytes, k: nat): (r: Bytes)
    requires k < Count(header) && InData(header, data, k)
    ensures |r| == LenAt(header, k)
  {
    data[OffAt(header, k)..OffAt(header, k) + LenAt(header, k)]
  }

  /** Every item the header announces can be read without a panic. */
  predicate WellFormed(header: Bytes, data: Bytes) {
    forall k :: 0 <= k < Count(header) ==> InData(header, data, k)
  }

  /** The items are in strictly ascending byte order, as `bsearch` assumes. */
  predicate SortedItems(header: Bytes, data: Bytes)
    requires WellFormed(header, data)
  {
    forall j, k :: 0 <= j < k < Count(header) ==> Less(ItemAt(header, data, j), ItemAt(header, data, k))
  }

  datatype ReadResult = Item(s: Bytes) | Missing | Panic

  /**
   * `read(id)`: ("", false) past the end, the item otherwise. The guard
   * is `id > count`, so `id == count` gets past it and indexes the header
   * out of range; any slice outside the files is a panic as well.
   */
  function Read(header: Bytes, data: Bytes, id: U32): (r: ReadResult)
    ensures id > Count(header) ==> r == Missing
    ensures id == Count(header) && |header| % 16 == 0 && 16 * id < TWO_32 ==> r == Panic
    ensures id < Count(header) && 16 * id < TWO_32 && InData(header, data, id) ==> r == Item(ItemAt(header, data, id))
  {
    if id > Count(header) then Missing
    else
      var pos := (id * 16) % TWO_32;
      if pos + 8 > |header| then Panic
      else
        var offlen := GetUint64(header, pos);
        var off := offlen / TWO_32;
        var hi := (off + offlen % TWO_32) % TWO_32;
        if off > hi || hi > |data| then Panic else Item(data[off..hi])
  }

  // ---------------------------------------------------------------------
  // The class

  class StoredStringArray {
    var header: Bytes
    var data: Bytes

    /** Open the two files with the contents they already have. */
    constructor (header: Bytes, data: Bytes)
      ensures this.header == header && this.data == data
    {
      this.header := header;
      this.data := data;
    }

    /**
     * `write(input, cb)`, with the extras `cb` returns for the items given
     * as a sequence: both files are rewritten from their start.
     */
    method Write(input: seq<Bytes>, extras: seq<U64>)
      requires |input| == |extras| && Fits(input)
      modifies this
      ensures header == Overwrite(old(header), HeaderOf(input, extras, |input|))
      ensures data == Overwrite(old(data), DataOf(input, |input|))
    {
      var h, d := Stream(input, extras);
      header := Overwrite(header, h);
      data := Overwrite(data, d);
    }

    /**
     * The loop of `write`: what it sends to the header file (an
     * offset/length word and an extra word per item) and to the data file
     * (the items back to back), with the uint32 offset kept alongside.
     */
    static method Stream(input: seq<Bytes>, extras: seq<U64>) returns (h: Bytes, d: Bytes)
      requires |input| == |extras| && Fits(input)
      ensures h == HeaderOf(input, extras, |input|) && d == DataOf(input, |input|)
    {
      var b8 := new Byte[8];
      var off: U32 := 0;
      h, d := [], [];
      for i := 0 to |input|
        invariant h == HeaderOf(input, extras, i)
        invariant d == DataOf(input, i)
        invariant off == |d| % TWO_32
      {
        OffsetStep(d, input[i], off);
        var w := PutWord(b8, OffLen(off, |input[i]|));
        var e := PutWord(b8, extras[i]);
        HeaderStep(input, extras, i, h, d, off, w, e);
        h := h + w + e;
        d := d + input[i];
        off := (off + |input[i]|) % TWO_32;
      }
    }

    /** `binary.LittleEndian.PutUint64` into the 8-byte scratch buffer, whose bytes are then appended. */
    static method PutWord(b8: array<Byte>, v: U64) returns (w: Bytes)
      requires b8.Length == 8
      modifies b8
      ensures w == Le64(v) + [] && b8[..] == w
    {
      PutUint64(b8, v);
      w := b8[..];
    }

    /** `bcmp`: `bytes.Compare` of a stored slice with `b`. */
    function Bcmp(offa: U32, lena: U32, b: Bytes): (r: int)
      reads this
      requires offa + lena <= |data|
      ensures r == 0 <==> data[offa..offa + lena] == b
      ensures r < 0 <==> Less(data[offa..offa + lena], b)
      ensures r > 0 <==> Less(b, data[offa..offa + lena])
    {
      CompareAntisym(data[offa..offa + lena], b);
      Compare(data[offa..offa + lena], b)
    }

    /** One probe of `bsearch`: compare `input` with the entry at the uint32 offset `mid*16`. */
    method Probe(mid: nat, input: Bytes) returns (diff: int)
      requires WellFormed(header, data) && mid < Count(header)
      ensures diff == 0 ==> ItemAt(header, data, mid % MAX_SEARCHED) == input
      ensures diff == 0 ==> GetUint64(header, ((mid * 16) % TWO_32 + 8) % TWO_32) == ExtraAt(header, mid % MAX_SEARCHED)
      ensures diff < 0 ==> Less(ItemAt(header, data, mid % MAX_SEARCHED), input)
      ensures diff > 0 ==> Less(input, ItemAt(header, data, mid % MAX_SEARCHED))
    {
      WrappedEntry(mid);
      var offlen := GetUint64(header, (mid * 16) % TWO_32);
      var offa := offlen / TWO_32;
      var lena := offlen % TWO_32;
      assert InData(header, data, mid % MAX_SEARCHED);
      diff := Bcmp(offa, lena, input);
    }

    /**
     * `bsearch`: binary search for `input` among the items. The entry
     * offset is the uint32 `mid*16`, so entry `mid` is read as entry
     * `mid % MAX_SEARCHED`. A hit is always genuine; on sorted items of
     * at most MAX_SEARCHED entries a miss means the item is absent.
     */
    method Bsearch(input: Bytes) returns (extra: U64, ok: bool)
      requires WellFormed(header, data)
      ensures ok ==> exists k :: 0 <= k < Count(header) && ItemAt(header, data, k) == input && extra == ExtraAt(header, k)
      ensures !ok ==> extra == 0
      ensures SortedItems(header, data) && Count(header) <= MAX_SEARCHED && !ok ==> forall k :: 0 <= k < Count(header) ==> ItemAt(header, data, k) != input
    {
      var start := 0;
      var end := Count(header);
      ghost var searchable := SortedItems(header, data) && Count(header) <= MAX_SEARCHED;
      while start < end
        invariant 0 <= start <= end <= Count(header)
        invariant searchable ==> forall k :: 0 <= k < start ==> Less(ItemAt(header, data, k), input)
        invariant searchable ==> forall k :: end <= k < Count(header) ==> Less(input, ItemAt(header, data, k))
      {
        var mid := start + (end - start) / 2;
        var diff := Probe(mid, input);
        ghost var at := mid % MAX_SEARCHED;
        WrappedEntry(mid);
        if diff == 0 {
          extra := GetUint64(header, ((mid * 16) % TWO_32 + 8) % TWO_32);
          return extra, true;
        }
        assert searchable ==> at == mid;
        if diff < 0 {
          SortedBelow(header, data, at, input);
          start := mid + 1;
        } else {
          SortedAbove(header, data, at, input);
          end := mid;
        }
      }
      forall k | 0 <= k < Count(header)
        ensures searchable ==> ItemAt(header, data, k) != input
      {
        if searchable {
          Irreflexive(input);
        }
      }
      return 0, false;
    }
  }

  /** Adding to a uint32 that already wrapped wraps to the same value as adding first. */
  lemma AddWrap(a: nat, b: nat)
    ensures (a % TWO_32 + b) % TWO_32 == (a + b) % TWO_32
  {
    var q := a / TWO_32;
    assert a == q * TWO_32 + a % TWO_32;
    assert a + b == q * TWO_32 + (a % TWO_32 + b);
  }

  /** The uint32 offset of entry `mid` is that of entry `mid % MAX_SEARCHED`, and its extra word follows without wrapping. */
  lemma WrappedEntry(mid: nat)
    ensures (mid * 16) % TWO_32 == 16 * (mid % MAX_SEARCHED)
    ensures ((mid * 16) % TWO_32 + 8) % TWO_32 == 16 * (mid % MAX_SEARCHED) + 8
    ensures mid % MAX_SEARCHED <= mid && (mid < MAX_SEARCHED ==> mid % MAX_SEARCHED == mid)
  {
  }

  /** One round of `write`'s loop appends item i's header entry. */
  lemma HeaderStep(items: seq<Bytes>, extras: seq<U64>, i: nat, h: Bytes, d: Bytes, off: U32, w: Bytes, e: Bytes)
    requires |items| == |extras| && Fits(items) && i < |items|
    requires h == HeaderOf(items, extras, i) && d == DataOf(items, i) && off == |d| % TWO_32
    requires w == Le64(OffLen(off, |items[i]|)) + [] && e == Le64(extras[i]) + []
    ensures h + w + e == HeaderOf(items, extras, i + 1)
  {
  }

  /** The running uint32 offset stays the data length modulo 2^32. */
  lemma OffsetStep(d: Bytes, item: Bytes, off: U32)
    requires off == |d| % TWO_32
    ensures (off + |item|) % TWO_32 == |d + item| % TWO_32
  {
    var q := |d| / TWO_32;
    assert |d| == q * TWO_32 + off;
    assert |d + item| == q * TWO_32 + (off + |item|);
  }

  lemma SmallMod(x: nat)
    requires x < TWO_32
    ensures x % TWO_32 == x
  {
  }

  lemma Irreflexive(a: Bytes)
    ensures !Less(a, a)
  {
    CompareAntisym(a, a);
  }

  /** On sorted items, everything up to an item below `input` is below it. */
  lemma SortedBelow(header: Bytes, data: Bytes, mid: nat, input: Bytes)
    requires WellFormed(header, data) && mid < Count(header)
    requires Less(ItemAt(header, data, mid), input)
    ensures SortedItems(header, data) ==> forall k :: 0 <= k <= mid ==> Less(ItemAt(header, data, k), input)
  {
    if SortedItems(header, data) {
      forall k | 0 <= k < mid
        ensures Less(ItemAt(header, data, k), input)
      {
        LessTransitive(ItemAt(header, data, k), ItemAt(header, data, mid), input);
      }
    }
  }

  lemma SortedAbove(header: Bytes, data: Bytes, mid: nat, input: Bytes)
    requires WellFormed(header, data) && mid < Count(header)
    requires Less(input, ItemAt(header, data, mid))
    ensures SortedItems(header, data) ==> forall k :: mid <= k < Count(header) ==> Less(input, ItemAt(header, data, k))
  {
    if SortedItems(header, data) {
      forall k | mid < k < Count(header)
        ensures Less(input, ItemAt(header, data, k))
      {
        LessTransitive(input, ItemAt(header, data, mid), ItemAt(header, data, k));
      }
    }
  }

  // ---------------------------------------------------------------------
  // Reading back what was written

  /** The first j items' bytes start the data file of the first n. */
  lemma {:induction false} DataPrefix(items: seq<Bytes>, j: nat, n: nat)
    requires j <= n <= |items|
    ensures DataOf(items, j) <= DataOf(items, n)
    decreases n
  {
    if j < n {
      DataPrefix(items, j, n - 1);
    }
  }

  /** Item k sits right after the items before it. */
  lemma DataItem(items: seq<Bytes>, k: nat)
    requires k < |items|
    ensures |DataOf(items, k)| + |items[k]| <= |DataOf(items, |items|)|
    ensures DataOf(items, |items|)[|DataOf(items, k)|..|DataOf(items, k)| + |items[k]|] == items[k]
  {
    DataPrefix(items, k + 1, |items|);
    var c := DataOf(items, k + 1);
    assert c[|DataOf(items, k)|..] == items[k];
  }

  lemma GetUint64Prefix(a: Bytes, b: Bytes, off: nat)
    requires off + 8 <= |a|
    ensures GetUint64(a + b, off) == GetUint64(a, off)
  {
    assert (a + b)[off..off + 8] == a[off..off + 8];
  }

  /** The two words of header entry k. */
  lemma {:induction false} HeaderEntry(items: seq<Bytes>, extras: seq<U64>, n: nat, k: nat)
    requires |items| == |extras| && Fits(items) && k < n <= |items|
    ensures GetUint64(HeaderOf(items, extras, n), 16 * k) == OffLen(|DataOf(items, k)| % TWO_32, |items[k]|)
    ensures GetUint64(HeaderOf(items, extras, n), 16 * k + 8) == extras[k]
    decreases n
  {
    var h0 := HeaderOf(items, extras, n - 1);
    var w := Le64(OffLen(|DataOf(items, n - 1)| % TWO_32, |items[n - 1]|));
    var e := Le64(extras[n - 1]);
    assert HeaderOf(items, extras, n) == h0 + (w + e);
    if k < n - 1 {
      HeaderEntry(items, extras, n - 1, k);
      GetUint64Prefix(h0, w + e, 16 * k);
      GetUint64Prefix(h0, w + e, 16 * k + 8);
    } else {
      GetUint64Within(h0, w, e);
      GetUint64Within(h0 + w, e, []);
      assert h0 + w + e + [] == h0 + (w + e);
    }
  }

  /** The header and data files `write` leaves behind when they held nothing longer. */
  function HeaderFile(items: seq<Bytes>, extras: seq<U64>): Bytes
    requires |items| == |extras| && Fits(items)
  {
    HeaderOf(items, extras, |items|)
  }

  function DataFile(items: seq<Bytes>): Bytes {
    DataOf(items, |items|)
  }

  /**
   * Round trip: reading a freshly written array gives back the count,
   * every item and every extra, provided the data file stays below
   * 4 GiB (offsets are uint32).
   */
  lemma WriteThenRead(items: seq<Bytes>, extras: seq<U64>)
    requires |items| == |extras| && Fits(items) && |DataFile(items)| < TWO_32
    ensures Count(HeaderFile(items, extras)) == |items|
    ensures WellFormed(HeaderFile(items, extras), DataFile(items))
    ensures forall k :: 0 <= k < |items| ==>
      && ItemAt(HeaderFile(items, extras), DataFile(items), k) == items[k]
      && ExtraAt(HeaderFile(items, extras), k) == extras[k]
  {
    var h := HeaderFile(items, extras);
    var d := DataFile(items);
    forall k | 0 <= k < |items|
      ensures InData(h, d, k) && ItemAt(h, d, k) == items[k] && ExtraAt(h, k) == extras[k]
    {
      HeaderEntry(items, extras, |items|, k);
      DataItem(items, k);
      var off := |DataOf(items, k)|;
      SmallMod(off);
      assert OffAt(h, k) == off && LenAt(h, k) == |items[k]|;
    }
  }

  /** Reading by id: every item, and a panic for `id == count`. */
  lemma ReadAfterWrite(items: seq<Bytes>, extras: seq<U64>, id: U32)
    requires |items| == |extras| && Fits(items) && |DataFile(items)| < TWO_32
    requires 16 * |items| < TWO_32
    ensures id < |items| ==> Read(HeaderFile(items, extras), DataFile(items), id) == Item(items[id])
    ensures id == |items| ==> Read(HeaderFile(items, extras), DataFile(items), id) == Panic
    ensures id > |items| ==> Read(HeaderFile(items, extras), DataFile(items), id) == Missing
  {
    WriteThenRead(items, extras);
  }

  /** Sorted input gives sorted items, which is what `bsearch` needs. */
  lemma WriteSorted(items: seq<Bytes>, extras: seq<U64>)
    requires |items| == |extras| && Fits(items) && |DataFile(items)| < TWO_32
    requires StrictlySorted(items)
    ensures WellFormed(HeaderFile(items, extras), DataFile(items))
    ensures SortedItems(HeaderFile(items, extras), DataFile(items))
  {
    WriteThenRead(items, extras);
  }

  /**
   * Rewriting with fewer items leaves the old entries in the header
   * file: after writing nothing over a one-item array, `count` is still 1.
   */
  lemma StaleTail(item: Bytes, extra: U64)
    requires |item| < TWO_32
    ensures Count(Overwrite(HeaderFile([item], [extra]), HeaderFile([], []))) == 1
  {
  }
}
