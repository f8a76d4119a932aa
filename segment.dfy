/**
  A `Segment` (segment.go): the in-memory build buffers of one index
  segment, and the three files it is flushed to — a dictionary of terms
  (a stored string array whose extras locate each term's postings), the
  postings file, and a forward array of document paths.

  The file contents are byte sequences, as a freshly opened segment maps
  them; the build buffers are a map from term to its postings entries and
  the list of paths.
*/
module Segments {
  import opened Bytes
  import opened Stored
  import opened Postings

  // ---------------------------------------------------------------------
  // Sorting the dictionary (`ByBytes` with `sort.Sort`)

  /** Insert x into a strictly ascending list that does not hold it yet. */
  function InsertSorted(s: seq<Bytes>, x: Bytes): (r: seq<Bytes>)
    requires StrictlySorted(s) && x !in s
    ensures StrictlySorted(r) && |r| == |s| + 1
    ensures forall t :: t in r <==> t in s || t == x
  {
    if s == [] then [x]
    else if Less(x, s[0]) then
      SortedCons(x, s);
      [x] + s
    else
      LessTotal(x, s[0]);
      var rest := InsertSorted(s[1..], x);
      SortedTail(s);
      SortedCons(s[0], rest);
      [s[0]] + rest
  }

  /** A head below the first element of an ascending list keeps it ascending. */
  lemma SortedCons(x: Bytes, s: seq<Bytes>)
    requires StrictlySorted(s)
    requires (s != [] && Less(x, s[0])) || (forall t :: t in s ==> Less(x, t))
    ensures StrictlySorted([x] + s)
  {
    var r := [x] + s;
    forall i, j | 0 <= i < j < |r|
      ensures Less(r[i], r[j])
    {
      if i == 0 && s != [] && Less(x, s[0]) && j > 1 {
        LessTransitive(x, s[0], s[j - 1]);
      } else if i == 0 {
        assert r[j] in s;
      }
    }
  }

  lemma SortedTail(s: seq<Bytes>)
    requires StrictlySorted(s) && s != []
    ensures StrictlySorted(s[1..]) && forall t :: t in s[1..] ==> Less(s[0], t)
  {
    forall t | t in s[1..]
      ensures Less(s[0], t)
    {
      var j :| 0 <= j < |s[1..]| && s[1..][j] == t;
    }
  }

  /** Two ascending lists with the same elements are the same list. */
  lemma {:induction false} SortedUnique(a: seq<Bytes>, b: seq<Bytes>)
    requires StrictlySorted(a) && StrictlySorted(b) && |a| == |b|
    requires forall t :: t in a <==> t in b
    ensures a == b
    decreases |a|
  {
    if a != [] {
      SortedTail(a);
      SortedTail(b);
      assert a[0] in b && b[0] in a;
      CompareAntisym(a[0], b[0]);
      assert a[0] == b[0];
      forall t
        ensures t in a[1..] <==> t in b[1..]
      {
        Irreflexive(a[0]);
        if t in a[1..] {
          assert t in b;
        }
        if t in b[1..] {
          assert t in a;
        }
      }
      SortedUnique(a[1..], b[1..]);
      assert a == [a[0]] + a[1..] && b == [b[0]] + b[1..];
    }
  }

  /** The dictionary's terms in the order `sort.Sort(ByBytes(terms))` leaves them. */
  ghost function SortedKeys(keys: set<Bytes>): (r: seq<Bytes>)
    ensures StrictlySorted(r) && |r| == |keys|
    ensures forall t :: t in r <==> t in keys
    decreases keys
  {
    if keys == {} then []
    else
      var x :| x in keys;
      InsertSorted(SortedKeys(keys - {x}), x)
  }

  /**
   * `sort.Sort(ByBytes(terms))` on distinct terms: `ByBytes.Less` is
   * `bytes.Compare(a, b) < 0`, so the result is the ascending order.
   */
  method SortByBytes(terms: seq<Bytes>) returns (sorted: seq<Bytes>)
    requires forall i, j :: 0 <= i < j < |terms| ==> terms[i] != terms[j]
    ensures StrictlySorted(sorted) && |sorted| == |terms|
    ensures forall t :: t in sorted <==> t in terms
  {
    sorted := [];
    for i := 0 to |terms|
      invariant StrictlySorted(sorted) && |sorted| == i
      invariant forall t :: t in sorted <==> t in terms[..i]
    {
      assert terms[i] !in terms[..i];
      sorted := InsertSorted(sorted, terms[i]);
      assert terms[..i + 1] == terms[..i] + [terms[i]];
    }
    assert terms[..|terms|] == terms;
  }

  // ---------------------------------------------------------------------
  // The layout `flushToDisk` produces

  /** Every postings list has fewer than 2^30 entries, so its byte length fits 32 bits. */
  predicate ListsFit(inv: map<Bytes, seq<U32>>) {
    forall t :: t in inv ==> 4 * |inv[t]| < TWO_32
  }

  /** The encoded postings list of each term, in term order. */
  function EncodedLists(terms: seq<Bytes>, inv: map<Bytes, seq<U32>>): (r: seq<Bytes>)
    requires forall t :: t in terms ==> t in inv
    ensures |r| == |terms| && forall k :: 0 <= k < |terms| ==> r[k] == Encode(inv[terms[k]])
  {
    seq(|terms|, k requires 0 <= k < |terms| => Encode(inv[terms[k]]))
  }

  /** The postings file after the lists of the first n terms, back to back. */
  function PostingsOf(terms: seq<Bytes>, inv: map<Bytes, seq<U32>>, n: nat): (r: Bytes)
    requires n <= |terms| && forall t :: t in terms ==> t in inv
  {
    DataOf(EncodedLists(terms, inv), n)
  }

  /**
   * The extras of the first n terms: `uint64(postings_off)<<32 | plen`,
   * the offset of the term's list (the shift drops all but its low 32
   * bits) and its byte length.
   */
  function ExtrasOf(terms: seq<Bytes>, inv: map<Bytes, seq<U32>>, n: nat): (r: seq<U64>)
    requires n <= |terms| && (forall t :: t in terms ==> t in inv) && ListsFit(inv)
    ensures |r| == n
  {
    if n == 0 then []
    else ExtrasOf(terms, inv, n - 1) + [OffLen(|PostingsOf(terms, inv, n - 1)| % TWO_32, 4 * |inv[terms[n - 1]]|)]
  }

  /** The files a flush writes into empty files. */
  ghost function DictTerms(inv: map<Bytes, seq<U32>>): (r: seq<Bytes>)
    ensures forall t :: t in r <==> t in inv
  {
    SortedKeys(inv.Keys)
  }

  ghost function PostingsFile(inv: map<Bytes, seq<U32>>): Bytes {
    PostingsOf(DictTerms(inv), inv, |DictTerms(inv)|)
  }

  ghost function DictExtras(inv: map<Bytes, seq<U32>>): (r: seq<U64>)
    requires ListsFit(inv)
    ensures |r| == |DictTerms(inv)|
  {
    ExtrasOf(DictTerms(inv), inv, |DictTerms(inv)|)
  }

  // ---------------------------------------------------------------------
  // Looking a term up in the flushed files

  /** Postings range of dictionary entry k lies inside the postings file (without uint32 wrap). */
  predicate InPostings(header: Bytes, postings: Bytes, k: nat)
    requires k < Count(header)
  {
    var e := ExtraAt(header, k);
    e / TWO_32 + e % TWO_32 < TWO_32 && e / TWO_32 + e % TWO_32 <= |postings|
  }

  /** The postings bytes dictionary entry k points at. */
  function ListAt(header: Bytes, postings: Bytes, k: nat): Bytes
    requires k < Count(header) && InPostings(header, postings, k)
  {
    var e := ExtraAt(header, k);
    postings[e / TWO_32..e / TWO_32 + e % TWO_32]
  }

  /** Every dictionary entry can be read and points inside the postings file. */
  predicate Consistent(header: Bytes, data: Bytes, postings: Bytes) {
    && WellFormed(header, data)
    && forall k :: 0 <= k < Count(header) ==> InPostings(header, postings, k)
  }

  /** The first dictionary position from k on holding `term`, or -1. */
  function IndexOf(header: Bytes, data: Bytes, term: Bytes, k: nat): (r: int)
    requires WellFormed(header, data) && k <= Count(header)
    ensures r == -1 || (k <= r < Count(header) && ItemAt(header, data, r) == term)
    ensures r == -1 ==> forall j :: k <= j < Count(header) ==> ItemAt(header, data, j) != term
    decreases Count(header) - k
  {
    if k == Count(header) then -1
    else if ItemAt(header, data, k) == term then k
    else IndexOf(header, data, term, k + 1)
  }

  /** The postings of `term` in flushed files: its list, or nothing when absent. */
  function Lookup(header: Bytes, data: Bytes, postings: Bytes, term: Bytes): (r: Bytes)
    requires Consistent(header, data, postings)
  {
    var k := IndexOf(header, data, term, 0);
    if k < 0 then [] else ListAt(header, postings, k)
  }

  /**
   * What the query engine relies on: a consistent, sorted dictionary
   * that `bsearch` can reach entry by entry, whose lists all ascend.
   */
  predicate Searchable(header: Bytes, data: Bytes, postings: Bytes) {
    && Consistent(header, data, postings)
    && SortedItems(header, data)
    && Count(header) <= MAX_SEARCHED
    && forall k :: 0 <= k < Count(header) ==> Ascending(ListAt(header, postings, k))
  }

  lemma LookupAscending(header: Bytes, data: Bytes, postings: Bytes, term: Bytes)
    requires Searchable(header, data, postings)
    ensures Ascending(Lookup(header, data, postings, term))
  {
  }

  /** The entry `bsearch` found: its postings range is inside the file, and on a sorted dictionary it is the one `Lookup` picks. */
  lemma FoundList(header: Bytes, data: Bytes, postings: Bytes, term: Bytes, extra: U64) returns (k: nat)
    requires Consistent(header, data, postings)
    requires exists k :: 0 <= k < Count(header) && ItemAt(header, data, k) == term && extra == ExtraAt(header, k)
    ensures k < Count(header) && ItemAt(header, data, k) == term && InPostings(header, postings, k)
    ensures extra / TWO_32 + extra % TWO_32 <= |postings|
    ensures ListAt(header, postings, k) == postings[extra / TWO_32..extra / TWO_32 + extra % TWO_32]
    ensures SortedItems(header, data) ==> Lookup(header, data, postings, term) == ListAt(header, postings, k)
  {
    k :| 0 <= k < Count(header) && ItemAt(header, data, k) == term && extra == ExtraAt(header, k);
    if SortedItems(header, data) {
      IndexOfSorted(header, data, term, k);
    }
  }

  /** On a sorted dictionary a term sits at one position only. */
  lemma IndexOfSorted(header: Bytes, data: Bytes, term: Bytes, k: nat)
    requires WellFormed(header, data) && SortedItems(header, data)
    requires k < Count(header) && ItemAt(header, data, k) == term
    ensures IndexOf(header, data, term, 0) == k
  {
    var j := IndexOf(header, data, term, 0);
    if j != k {
      Irreflexive(term);
    }
  }

  /** Extra k records where list k starts and how long it is. */
  lemma {:induction false} ExtraEntry(terms: seq<Bytes>, inv: map<Bytes, seq<U32>>, n: nat, k: nat)
    requires k < n <= |terms| && (forall t :: t in terms ==> t in inv) && ListsFit(inv)
    ensures ExtrasOf(terms, inv, n)[k] == OffLen(|PostingsOf(terms, inv, k)| % TWO_32, 4 * |inv[terms[k]]|)
    decreases n
  {
    var prev := ExtrasOf(terms, inv, n - 1);
    assert terms[n - 1] in terms;
    var last := OffLen(|PostingsOf(terms, inv, n - 1)| % TWO_32, 4 * |inv[terms[n - 1]]|);
    assert ExtrasOf(terms, inv, n) == prev + [last];
    if k < n - 1 {
      ExtraEntry(terms, inv, n - 1, k);
      assert ExtrasOf(terms, inv, n)[k] == prev[k];
    }
  }

  /** Dictionary entry k of freshly written files points at term k's encoded list. */
  lemma FlushedList(terms: seq<Bytes>, inv: map<Bytes, seq<U32>>, k: nat)
    requires (forall t :: t in terms ==> t in inv) && Fits(terms) && ListsFit(inv)
    requires |DataFile(terms)| < TWO_32 && |PostingsOf(terms, inv, |terms|)| < TWO_32
    requires k < |terms|
    ensures Count(HeaderFile(terms, ExtrasOf(terms, inv, |terms|))) == |terms|
    ensures InPostings(HeaderFile(terms, ExtrasOf(terms, inv, |terms|)), PostingsOf(terms, inv, |terms|), k)
    ensures ListAt(HeaderFile(terms, ExtrasOf(terms, inv, |terms|)), PostingsOf(terms, inv, |terms|), k) == Encode(inv[terms[k]])
  {
    var extras := ExtrasOf(terms, inv, |terms|);
    var h := HeaderFile(terms, extras);
    var lists := EncodedLists(terms, inv);
    WriteThenRead(terms, extras);
    ExtraEntry(terms, inv, |terms|, k);
    ListAtEntry(h, lists, k);
    assert PostingsOf(terms, inv, |terms|) == DataOf(lists, |lists|);
  }

  /** A dictionary entry whose extra records (offset, length) of item k locates item k in the concatenation. */
  lemma ListAtEntry(h: Bytes, lists: seq<Bytes>, k: nat)
    requires k < |lists| && k < Count(h) && |DataOf(lists, |lists|)| < TWO_32 && |lists[k]| < TWO_32
    requires ExtraAt(h, k) == OffLen(|DataOf(lists, k)| % TWO_32, |lists[k]|)
    ensures InPostings(h, DataOf(lists, |lists|), k)
    ensures ListAt(h, DataOf(lists, |lists|), k) == lists[k]
  {
    DataItem(lists, k);
    SmallMod(|DataOf(lists, k)|);
  }

  /** Looking up in freshly written sorted files: a term's own list, or nothing for an absent term. */
  lemma FlushedLookup(terms: seq<Bytes>, inv: map<Bytes, seq<U32>>)
    requires (forall t :: t in terms <==> t in inv) && Fits(terms) && ListsFit(inv) && StrictlySorted(terms)
    requires |DataFile(terms)| < TWO_32 && |PostingsOf(terms, inv, |terms|)| < TWO_32
    ensures Consistent(HeaderFile(terms, ExtrasOf(terms, inv, |terms|)), DataFile(terms), PostingsOf(terms, inv, |terms|))
    ensures SortedItems(HeaderFile(terms, ExtrasOf(terms, inv, |terms|)), DataFile(terms))
    ensures forall t :: t in inv ==> Lookup(HeaderFile(terms, ExtrasOf(terms, inv, |terms|)), DataFile(terms), PostingsOf(terms, inv, |terms|), t) == Encode(inv[t])
    ensures forall t :: t !in inv ==> Lookup(HeaderFile(terms, ExtrasOf(terms, inv, |terms|)), DataFile(terms), PostingsOf(terms, inv, |terms|), t) == []
  {
    var extras := ExtrasOf(terms, inv, |terms|);
    var h := HeaderFile(terms, extras);
    var d := DataFile(terms);
    var p := PostingsOf(terms, inv, |terms|);
    FlushedConsistent(terms, inv);
    forall t | t in inv
      ensures Lookup(h, d, p, t) == Encode(inv[t])
    {
      FlushedPresent(terms, inv, t);
    }
    forall t | t !in inv
      ensures Lookup(h, d, p, t) == []
    {
      FlushedAbsent(terms, inv, t);
    }
  }

  lemma FlushedConsistent(terms: seq<Bytes>, inv: map<Bytes, seq<U32>>)
    requires (forall t :: t in terms <==> t in inv) && Fits(terms) && ListsFit(inv) && StrictlySorted(terms)
    requires |DataFile(terms)| < TWO_32 && |PostingsOf(terms, inv, |terms|)| < TWO_32
    ensures Consistent(HeaderFile(terms, ExtrasOf(terms, inv, |terms|)), DataFile(terms), PostingsOf(terms, inv, |terms|))
    ensures SortedItems(HeaderFile(terms, ExtrasOf(terms, inv, |terms|)), DataFile(terms))
    ensures forall k :: 0 <= k < |terms| ==> ItemAt(HeaderFile(terms, ExtrasOf(terms, inv, |terms|)), DataFile(terms), k) == terms[k]
    ensures forall k :: 0 <= k < |terms| ==> ListAt(HeaderFile(terms, ExtrasOf(terms, inv, |terms|)), PostingsOf(terms, inv, |terms|), k) == Encode(inv[terms[k]])
  {
    var extras := ExtrasOf(terms, inv, |terms|);
    var h := HeaderFile(terms, extras);
    var p := PostingsOf(terms, inv, |terms|);
    WriteThenRead(terms, extras);
    WriteSorted(terms, extras);
    forall k | 0 <= k < Count(h)
      ensures InPostings(h, p, k) && ListAt(h, p, k) == Encode(inv[terms[k]])
    {
      FlushedList(terms, inv, k);
    }
  }

  lemma FlushedPresent(terms: seq<Bytes>, inv: map<Bytes, seq<U32>>, t: Bytes)
    requires (forall t :: t in terms <==> t in inv) && Fits(terms) && ListsFit(inv) && StrictlySorted(terms)
    requires |DataFile(terms)| < TWO_32 && |PostingsOf(terms, inv, |terms|)| < TWO_32
    requires t in inv
    ensures Consistent(HeaderFile(terms, ExtrasOf(terms, inv, |terms|)), DataFile(terms), PostingsOf(terms, inv, |terms|))
    ensures Lookup(HeaderFile(terms, ExtrasOf(terms, inv, |terms|)), DataFile(terms), PostingsOf(terms, inv, |terms|), t) == Encode(inv[t])
  {
    var h := HeaderFile(terms, ExtrasOf(terms, inv, |terms|));
    FlushedConsistent(terms, inv);
    var k :| 0 <= k < |terms| && terms[k] == t;
    IndexOfSorted(h, DataFile(terms), t, k);
  }

  lemma FlushedAbsent(terms: seq<Bytes>, inv: map<Bytes, seq<U32>>, t: Bytes)
    requires (forall t :: t in terms <==> t in inv) && Fits(terms) && ListsFit(inv) && StrictlySorted(terms)
    requires |DataFile(terms)| < TWO_32 && |PostingsOf(terms, inv, |terms|)| < TWO_32
    requires t !in inv
    ensures Consistent(HeaderFile(terms, ExtrasOf(terms, inv, |terms|)), DataFile(terms), PostingsOf(terms, inv, |terms|))
    ensures Lookup(HeaderFile(terms, ExtrasOf(terms, inv, |terms|)), DataFile(terms), PostingsOf(terms, inv, |terms|), t) == []
  {
    var h := HeaderFile(terms, ExtrasOf(terms, inv, |terms|));
    var d := DataFile(terms);
    FlushedConsistent(terms, inv);
    forall k | 0 <= k < Count(h)
      ensures ItemAt(h, d, k) != t
    {
      assert terms[k] in terms;
    }
    assert IndexOf(h, d, t, 0) == -1;
  }

  /**
   * Round trip of `flushToDisk`: written into empty files (and kept below
   * 4 GiB, as offsets are uint32), the dictionary is consistent and
   * sorted, and looking a term up gives its encoded postings, or nothing
   * for a term that was never added.
   */
  lemma FlushThenLookup(inv: map<Bytes, seq<U32>>)
    requires Fits(DictTerms(inv)) && ListsFit(inv)
    requires |DataFile(DictTerms(inv))| < TWO_32 && |PostingsFile(inv)| < TWO_32
    ensures Consistent(HeaderFile(DictTerms(inv), DictExtras(inv)), DataFile(DictTerms(inv)), PostingsFile(inv))
    ensures SortedItems(HeaderFile(DictTerms(inv), DictExtras(inv)), DataFile(DictTerms(inv)))
    ensures forall t :: t in inv ==> Lookup(HeaderFile(DictTerms(inv), DictExtras(inv)), DataFile(DictTerms(inv)), PostingsFile(inv), t) == Encode(inv[t])
    ensures forall t :: t !in inv ==> Lookup(HeaderFile(DictTerms(inv), DictExtras(inv)), DataFile(DictTerms(inv)), PostingsFile(inv), t) == []
  {
    FlushedLookup(DictTerms(inv), inv);
  }

  /** Flushing lists whose document ids ascend gives a dictionary the query engine can search. */
  lemma FlushSearchable(inv: map<Bytes, seq<U32>>)
    requires Fits(DictTerms(inv)) && ListsFit(inv)
    requires |DataFile(DictTerms(inv))| < TWO_32 && |PostingsFile(inv)| < TWO_32 && |inv| <= MAX_SEARCHED
    requires forall t :: t in inv ==> Ascending(Encode(inv[t]))
    ensures Searchable(HeaderFile(DictTerms(inv), DictExtras(inv)), DataFile(DictTerms(inv)), PostingsFile(inv))
  {
    var terms := DictTerms(inv);
    var h := HeaderFile(terms, DictExtras(inv));
    var p := PostingsFile(inv);
    FlushedConsistent(terms, inv);
    WriteThenRead(terms, DictExtras(inv));
    forall k | 0 <= k < Count(h)
      ensures Ascending(ListAt(h, p, k))
    {
      assert terms[k] in inv;
    }
  }

  // ---------------------------------------------------------------------
  // The segment

  class Segment {
    var inmemoryInverted: map<Bytes, seq<U32>>
    var inmemoryForward: seq<Bytes>
    const inverted: StoredStringArray
    const forward: StoredStringArray
    /** The contents of the postings file. */
    var postings: Bytes

    /** The dictionary and the forward array are distinct objects. */
    predicate SeparateArrays()
      reads this
    {
      inverted != forward
    }

    /**
     * `NewSegment`: empty build buffers, except that the forward buffer
     * starts with 100 empty paths; the files keep what they hold.
     */
    constructor (invHeader: Bytes, invData: Bytes, fwdHeader: Bytes, fwdData: Bytes, postings: Bytes)
      ensures SeparateArrays() && fresh(inverted) && fresh(forward)
      ensures inmemoryInverted == map[] && inmemoryForward == seq(100, _ => [])
      ensures inverted.header == invHeader && inverted.data == invData
      ensures forward.header == fwdHeader && forward.data == fwdData
      ensures this.postings == postings
    {
      inmemoryInverted := map[];
      inmemoryForward := seq(100, _ => []);
      inverted := new StoredStringArray(invHeader, invData);
      forward := new StoredStringArray(fwdHeader, fwdData);
      this.postings := postings;
    }

    /** `addForward`: appends the path and returns its ordinal, `int32(len)` before the append. */
    method AddForward(doc: Bytes) returns (id: I32)
      modifies this
      ensures inmemoryForward == old(inmemoryForward) + [doc]
      ensures id == Int32Of(|old(inmemoryForward)|)
      ensures inmemoryInverted == old(inmemoryInverted) && postings == old(postings)
    {
      id := Int32Of(|inmemoryForward|);
      inmemoryForward := inmemoryForward + [doc];
    }

    /** `addInverted`: appends one entry to the term's list (creating it), no other list changes. */
    method AddInverted(term: Bytes, id: U32)
      modifies this
      ensures inmemoryInverted == old(inmemoryInverted)[term := (if term in old(inmemoryInverted) then old(inmemoryInverted[term]) else []) + [id]]
      ensures inmemoryForward == old(inmemoryForward) && postings == old(postings)
    {
      var list := if term in inmemoryInverted then inmemoryInverted[term] else [];
      inmemoryInverted := inmemoryInverted[term := list + [id]];
    }

    /**
     * `findPostingsList`: the term's postings when the dictionary holds
     * it, nothing otherwise. A hit is always some entry of the term; on
     * a sorted dictionary of at most MAX_SEARCHED entries it is the one
     * `Lookup` specifies.
     */
    method FindPostingsList(term: Bytes) returns (r: Bytes)
      requires Consistent(inverted.header, inverted.data, postings)
      ensures r == [] || exists k :: 0 <= k < Count(inverted.header) && ItemAt(inverted.header, inverted.data, k) == term && r == ListAt(inverted.header, postings, k)
      ensures SortedItems(inverted.header, inverted.data) && Count(inverted.header) <= MAX_SEARCHED ==> r == Lookup(inverted.header, inverted.data, postings, term)
    {
      var extra, ok := inverted.Bsearch(term);
      if ok {
        ghost var k := FoundList(inverted.header, inverted.data, postings, term, extra);
        var off := extra / TWO_32;
        var l := extra % TWO_32;
        r := postings[off..off + l];
      } else {
        r := [];
      }
    }

    /** Postings bytes of one term: `putUint32Off` of each entry into a fresh buffer. */
    static method EncodeList(tpostings: seq<U32>) returns (bytes: Bytes)
      requires 4 * |tpostings| < TWO_32
      ensures bytes == Encode(tpostings)
    {
      var plen := |tpostings| * 4;
      var buf := new Byte[plen](_ => 0);
      var soff := 0;
      for j := 0 to |tpostings|
        invariant soff == 4 * j
        invariant buf[..soff] == EncodeOf(tpostings, j)
      {
        PutUint32Off(buf, soff, tpostings[j]);
        soff := soff + 4;
      }
      bytes := buf[..];
    }

    /**
     * `flushToDisk`: the dictionary gets the distinct terms in byte
     * order, each with the extra locating its list; the postings file
     * gets the lists back to back in that order; the forward array gets
     * the paths in ordinal order with extra 0. Files are not truncated.
     */
    method FlushToDisk()
      requires SeparateArrays()
      requires Fits(DictTerms(inmemoryInverted)) && ListsFit(inmemoryInverted) && Fits(inmemoryForward)
      modifies this, inverted, forward
      ensures inmemoryInverted == old(inmemoryInverted) && inmemoryForward == old(inmemoryForward)
      ensures inverted.header == Overwrite(old(inverted.header), HeaderFile(DictTerms(inmemoryInverted), DictExtras(inmemoryInverted)))
      ensures inverted.data == Overwrite(old(inverted.data), DataFile(DictTerms(inmemoryInverted)))
      ensures postings == Overwrite(old(postings), PostingsFile(inmemoryInverted))
      ensures forward.header == Overwrite(old(forward.header), HeaderFile(inmemoryForward, seq(|inmemoryForward|, _ => 0)))
      ensures forward.data == Overwrite(old(forward.data), DataFile(inmemoryForward))
    {
      var inv := inmemoryInverted;
      var docs := inmemoryForward;
      var keys := CollectKeys(inv);
      var terms := SortByBytes(keys);
      SortedUnique(terms, DictTerms(inv));
      var p, extras := BuildPostings(terms, inv);
      postings := Overwrite(postings, p);
      inverted.Write(terms, extras);
      var zeros: seq<U64> := seq(|docs|, _ => 0);
      forward.Write(docs, zeros);
    }
  }

  /**
   * The `write` callback of `flushToDisk`, run over the terms in order:
   * each term's extra records the running `postings_off` and the list's
   * byte length, and its encoded list is appended to the postings file.
   */
  method BuildPostings(terms: seq<Bytes>, inv: map<Bytes, seq<U32>>) returns (p: Bytes, extras: seq<U64>)
    requires (forall t :: t in terms ==> t in inv) && ListsFit(inv)
    ensures p == PostingsOf(terms, inv, |terms|)
    ensures extras == ExtrasOf(terms, inv, |terms|)
  {
    var postingsOff := 0;
    extras := [];
    p := [];
    for i := 0 to |terms|
      invariant p == PostingsOf(terms, inv, i) && postingsOff == |p|
      invariant extras == ExtrasOf(terms, inv, i)
    {
      var tpostings := inv[terms[i]];
      var plen := |tpostings| * 4;
      extras := extras + [OffLen(postingsOff % TWO_32, plen)];
      var buf := Segment.EncodeList(tpostings);
      postingsOff := postingsOff + plen;
      p := p + buf;
    }
  }

  /** The keys of the in-memory dictionary, in the map's (unspecified) iteration order. */
  method CollectKeys(inv: map<Bytes, seq<U32>>) returns (keys: seq<Bytes>)
    ensures |keys| == |inv|
    ensures forall t :: t in keys <==> t in inv
    ensures forall i, j :: 0 <= i < j < |keys| ==> keys[i] != keys[j]
  {
    keys := [];
    var rest := inv.Keys;
    while rest != {}
      invariant forall t :: t in keys <==> t in inv && t !in rest
      invariant rest <= inv.Keys && |keys| + |rest| == |inv|
      invariant forall i, j :: 0 <= i < j < |keys| ==> keys[i] != keys[j]
      decreases rest
    {
      var t :| t in rest;
      keys := keys + [t];
      rest := rest - {t};
    }
  }
}
