/**
  The postings format shared by the segment writer and the query engine:
  a postings list is a run of little-endian uint32 entries, each the bit
  pattern of `id<<10 | count` that the indexer packs, so that an entry's
  top 22 bits are its document id and its low 10 bits its weight.
*/
module Postings {
  import opened Bytes

  /** The document id an exhausted iterator reports (`math.MaxInt32`). */
  const NO_MORE: int := 0x7FFF_FFFF
  /** The document id of an iterator that has not been stepped yet. */
  const NOT_READY: int := -1

  /** The number of whole entries in a postings list. */
  function Entries(p: Bytes): nat {
    |p| / 4
  }

  /** Entry k, as `getAt(k)` reads it. */
  function Entry(p: Bytes, k: nat): U32
    requires k < Entries(p)
  {
    GetUint32(p, 4 * k)
  }

  /** `int32(getAt(k) >> 10)`: never negative, and far below `NO_MORE`. */
  function DocAt(p: Bytes, k: nat): (r: int)
    requires k < Entries(p)
    ensures 0 <= r < 0x40_0000
  {
    Entry(p, k) / 1024
  }

  /** `getAt(k) & 0x3FF`. */
  function WeightAt(p: Bytes, k: nat): (r: int)
    requires k < Entries(p)
    ensures 0 <= r < 1024
  {
    Entry(p, k) % 1024
  }

  /**
   * The weight of the entry holding document d, 0 when no entry does.
   * On an ascending list at most one entry holds d (`WeightOfAt`).
   */
  ghost function WeightOf(p: Bytes, d: int): (r: int)
    ensures 0 <= r < 1024
    ensures !InDocs(p, d) ==> r == 0
  {
    if InDocs(p, d) then
      var k :| 0 <= k < Entries(p) && DocAt(p, k) == d;
      WeightAt(p, k)
    else 0
  }

  /** On an ascending list, the weight of the document at position c is the weight stored there. */
  lemma WeightOfAt(p: Bytes, c: nat)
    requires Ascending(p) && c < Entries(p)
    ensures WeightOf(p, DocAt(p, c)) == WeightAt(p, c)
  {
    assert InDocs(p, DocAt(p, c));
  }

  /** The document at position c, or `NO_MORE` past the end. */
  function DocOrEnd(p: Bytes, c: nat): (r: int)
    ensures c < Entries(p) ==> 0 <= r < 0x40_0000
    ensures c >= Entries(p) ==> r == NO_MORE
  {
    if c < Entries(p) then DocAt(p, c) else NO_MORE
  }

  /** Document ids strictly increase along the list. */
  predicate Ascending(p: Bytes) {
    forall j, k :: 0 <= j < k < Entries(p) ==> DocAt(p, j) < DocAt(p, k)
  }

  /** d is the document of some entry. */
  predicate InDocs(p: Bytes, d: int) {
    exists k :: 0 <= k < Entries(p) && DocAt(p, k) == d
  }

  /** No entry's document lies in [lo, hi). */
  predicate NoDocIn(p: Bytes, lo: int, hi: int) {
    forall k :: 0 <= k < Entries(p) ==> !(lo <= DocAt(p, k) < hi)
  }

  /** d is the least document >= x, or `NO_MORE` when there is none. */
  predicate IsCeil(p: Bytes, x: int, d: int) {
    && (d == NO_MORE || (x <= d && InDocs(p, d)))
    && NoDocIn(p, x, d)
  }

  /** c is the first position, from `from` on, whose document is >= x (or the end). */
  predicate IsLowerBound(p: Bytes, from: nat, x: int, c: nat) {
    && from <= c <= Entries(p)
    && (forall k :: from <= k < c ==> DocAt(p, k) < x)
    && (c < Entries(p) ==> DocAt(p, c) >= x)
  }

  /** On an ascending list, the document at the lower bound of x is the ceiling of x. */
  lemma CeilAtLowerBound(p: Bytes, x: int, c: nat)
    requires Ascending(p) && IsLowerBound(p, 0, x, c)
    ensures IsCeil(p, x, DocOrEnd(p, c))
  {
    forall k | 0 <= k < Entries(p)
      ensures !(x <= DocAt(p, k) < DocOrEnd(p, c))
    {
      if k >= c && c < Entries(p) && k > c {
        assert DocAt(p, c) < DocAt(p, k);
      }
    }
  }

  /** Entries below the cursor of an ascending list lie below its document. */
  lemma BelowCursor(p: Bytes, c: nat, x: int)
    requires Ascending(p) && c < Entries(p) && DocAt(p, c) < x
    ensures forall k :: 0 <= k < c ==> DocAt(p, k) < x
  {
  }

  // ---------------------------------------------------------------------
  // Encoding a list of entries

  /** The first n entries of `ids`, four little-endian bytes each. */
  function EncodeOf(ids: seq<U32>, n: nat): (r: Bytes)
    requires n <= |ids|
    ensures |r| == 4 * n
  {
    if n == 0 then [] else EncodeOf(ids, n - 1) + Le32(ids[n - 1])
  }

  function Encode(ids: seq<U32>): (r: Bytes)
    ensures Entries(r) == |ids| && |r| == 4 * |ids|
  {
    EncodeOf(ids, |ids|)
  }

  lemma GetUint32Prefix(a: Bytes, b: Bytes, off: nat)
    requires off + 4 <= |a|
    ensures GetUint32(a + b, off) == GetUint32(a, off)
  {
    assert (a + b)[off..off + 4] == a[off..off + 4];
  }

  /** Entry k of an encoded list is the k-th id. */
  lemma {:induction false} EncodeEntry(ids: seq<U32>, n: nat, k: nat)
    requires k < n <= |ids|
    ensures GetUint32(EncodeOf(ids, n), 4 * k) == ids[k]
    decreases n
  {
    var e0 := EncodeOf(ids, n - 1);
    var w := Le32(ids[n - 1]);
    if k < n - 1 {
      EncodeEntry(ids, n - 1, k);
      GetUint32Prefix(e0, w, 4 * k);
    } else {
      GetUint32Within(e0, w, []);
      assert e0 + w + [] == EncodeOf(ids, n);
    }
  }

  /** Decoding an encoded list gives back every entry. */
  lemma EncodeDecode(ids: seq<U32>)
    ensures Entries(Encode(ids)) == |ids|
    ensures forall k :: 0 <= k < |ids| ==> Entry(Encode(ids), k) == ids[k]
  {
    forall k | 0 <= k < |ids|
      ensures Entry(Encode(ids), k) == ids[k]
    {
      EncodeEntry(ids, |ids|, k);
    }
  }
}
