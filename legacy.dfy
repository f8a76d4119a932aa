/**
 * The older, in-memory revision of the index glue (index.go at the top of
 * the repository): a fixed number of shards, each holding the list of
 * its documents' paths and its postings lists; composite ids
 * `shard<<24 | ordinal`; the document lookup, the totals and the
 * per-file weighting of the `adder` worker.
 */
module Legacy {
  import opened Bytes
  import opened Stored
  import opened Tokenizer
  import opened QueryTerms
  import opened Weighting
  import opened Indexing

  /** The number of shards a new index gets. */
  const N_SEGMENTS: nat := 20

  /** One postings list of a shard's stored data. */
  datatype StoredList = StoredList(term: Bytes, ids: seq<I32>)

  /** A shard's stored data: the paths by ordinal, and the postings lists. */
  datatype Shard = Shard(documents: seq<Bytes>, postings: seq<StoredList>)

  const EmptyShard: Shard := Shard([], [])

  /** `NewIndex`: a slice of N_SEGMENTS new shards, filled one by one. */
  method NewIndex() returns (shards: seq<Shard>)
    ensures |shards| == N_SEGMENTS
    ensures forall k :: 0 <= k < |shards| ==> shards[k] == EmptyShard
  {
    shards := [];
    for i := 0 to N_SEGMENTS
      invariant |shards| == i
      invariant forall k :: 0 <= k < i ==> shards[k] == EmptyShard
    {
      shards := shards + [EmptyShard];
    }
  }

  // ---------------------------------------------------------------------
  // Looking a document up

  /**
   * `fetchForward`: the shard is `id>>24`, the ordinal `id & 0xFFFFFF`.
   * A shard below 0 or above the count, or an ordinal past the shard's
   * last document, finds nothing; the shard guard lets the shard equal
   * to the count through, and indexing the shards with it panics.
   */
  function FetchForward(shards: seq<Shard>, id: int): (r: ReadResult)
    ensures r.Panic? <==> id / SHIFT == |shards|
    ensures r.Item? <==> 0 <= id / SHIFT < |shards| && id % SHIFT < |shards[id / SHIFT].documents|
    ensures r.Item? ==> r.s == shards[id / SHIFT].documents[id % SHIFT]
  {
    var shard := id / SHIFT;
    var ordinal := id % SHIFT;
    if shard < 0 || shard > |shards| then Missing
    else if shard == |shards| then Panic
    else if ordinal > |shards[shard].documents| - 1 then Missing
    else Item(shards[shard].documents[ordinal])
  }

  /** A composite id built from a shard below 128 finds that shard's document. */
  lemma FetchComposite(shards: seq<Shard>, i: nat, doc: int)
    requires i < |shards| && i < 0x80 && 0 <= doc < |shards[i].documents| && doc < SHIFT
    ensures FetchForward(shards, CompositeId(i, doc)) == Item(shards[i].documents[doc])
  {
    var id := CompositeId(i, doc);
    assert id == i * SHIFT + doc;
    assert id / SHIFT == i && id % SHIFT == doc;
  }

  /** Ids of the shard one past the last pass the guard and panic. */
  lemma FetchPastLastShard(shards: seq<Shard>, ordinal: int)
    requires 0 <= ordinal < SHIFT
    ensures FetchForward(shards, |shards| * SHIFT + ordinal) == Panic
  {
    var id := |shards| * SHIFT + ordinal;
    assert id / SHIFT == |shards|;
  }

  // ---------------------------------------------------------------------
  // Totals

  /** The number of documents of the first n shards. */
  function DocCount(shards: seq<Shard>, n: nat): (r: nat)
    requires n <= |shards|
    ensures n > 0 ==> r >= |shards[n - 1].documents|
    ensures (forall k :: 0 <= k < n ==> shards[k].documents == []) ==> r == 0
  {
    if n == 0 then 0 else DocCount(shards, n - 1) + |shards[n - 1].documents|
  }

  /** The number of postings lists of the first n shards. */
  function ListCount(shards: seq<Shard>, n: nat): (r: nat)
    requires n <= |shards|
    ensures n > 0 ==> r >= |shards[n - 1].postings|
    ensures (forall k :: 0 <= k < n ==> shards[k].postings == []) ==> r == 0
  {
    if n == 0 then 0 else ListCount(shards, n - 1) + |shards[n - 1].postings|
  }

  /** `stats`: the documents and the postings lists of all shards. */
  method Stats(shards: seq<Shard>) returns (total: nat, approxterms: nat)
    ensures total == DocCount(shards, |shards|)
    ensures approxterms == ListCount(shards, |shards|)
  {
    total, approxterms := 0, 0;
    for i := 0 to |shards|
      invariant total == DocCount(shards, i)
      invariant approxterms == ListCount(shards, i)
    {
      total := total + |shards[i].documents|;
      approxterms := approxterms + |shards[i].postings|;
    }
  }

  // ---------------------------------------------------------------------
  // Running a query

  /** What the query yields on one document of a shard: its ordinal and score. */
  datatype Match = Match(doc: int, score: int)

  /** One call of the `executeQuery` callback: path, composite id, score. */
  datatype Call = Call(path: Bytes, id: I32, score: int)

  /** Every match names a document of its shard. */
  predicate Resolvable(shards: seq<Shard>, found: seq<seq<Match>>) {
    && |found| == |shards|
    && forall i, k :: 0 <= i < |found| && 0 <= k < |found[i]| ==>
         0 <= found[i][k].doc < |shards[i].documents| && found[i][k].doc < SHIFT
  }

  /** The calls for the first n matches of shard i. */
  function ShardCalls(shards: seq<Shard>, found: seq<seq<Match>>, i: nat, n: nat): (r: seq<Call>)
    requires Resolvable(shards, found) && i < |shards| && n <= |found[i]|
    ensures |r| == n
  {
    if n == 0 then []
    else
      var m := found[i][n - 1];
      ShardCalls(shards, found, i, n - 1) + [Call(shards[i].documents[m.doc], CompositeId(i, m.doc), m.score)]
  }

  /** The calls for every match of the first n shards, shard by shard. */
  function Calls(shards: seq<Shard>, found: seq<seq<Match>>, n: nat): (r: seq<Call>)
    requires Resolvable(shards, found) && n <= |shards|
  {
    if n == 0 then [] else Calls(shards, found, n - 1) + ShardCalls(shards, found, n - 1, |found[n - 1]|)
  }

  /**
   * `executeQuery`: for each shard in turn, one callback per document the
   * query yields there, in the order it yields them. The query itself is
   * given as what it yields on each shard.
   */
  method ExecuteQuery(shards: seq<Shard>, found: seq<seq<Match>>) returns (calls: seq<Call>)
    requires Resolvable(shards, found)
    ensures calls == Calls(shards, found, |shards|)
  {
    calls := [];
    for i := 0 to |shards|
      invariant calls == Calls(shards, found, i)
    {
      var k := 0;
      while k < |found[i]|
        invariant k <= |found[i]|
        invariant calls == Calls(shards, found, i) + ShardCalls(shards, found, i, k)
      {
        var m := found[i][k];
        calls := calls + [Call(shards[i].documents[m.doc], CompositeId(i, m.doc), m.score)];
        k := k + 1;
      }
    }
  }

  /** With at most 128 shards, every reported id looks its own path up again. */
  lemma {:induction false} CallsFetchBack(shards: seq<Shard>, found: seq<seq<Match>>, n: nat)
    requires Resolvable(shards, found) && n <= |shards| <= 0x80
    ensures forall c :: c in Calls(shards, found, n) ==> FetchForward(shards, c.id) == Item(c.path)
  {
    if n > 0 {
      CallsFetchBack(shards, found, n - 1);
      ShardCallsFetchBack(shards, found, n - 1, |found[n - 1]|);
    }
  }

  lemma {:induction false} ShardCallsFetchBack(shards: seq<Shard>, found: seq<seq<Match>>, i: nat, n: nat)
    requires Resolvable(shards, found) && i < |shards| <= 0x80 && n <= |found[i]|
    ensures forall c :: c in ShardCalls(shards, found, i, n) ==> FetchForward(shards, c.id) == Item(c.path)
  {
    if n > 0 {
      ShardCallsFetchBack(shards, found, i, n - 1);
      FetchComposite(shards, i, found[i][n - 1].doc);
    }
  }

  /** Every match is reported exactly once: the calls number the matches. */
  lemma {:induction false} CallsCount(shards: seq<Shard>, found: seq<seq<Match>>, n: nat)
    requires Resolvable(shards, found) && n <= |shards|
    ensures |Calls(shards, found, n)| == MatchCount(found, n)
  {
    if n > 0 {
      CallsCount(shards, found, n - 1);
    }
  }

  function MatchCount(found: seq<seq<Match>>, n: nat): nat
    requires n <= |found|
  {
    if n == 0 then 0 else MatchCount(found, n - 1) + |found[n - 1]|
  }

  // ---------------------------------------------------------------------
  // The adder's weighting

  /** No upper-case ASCII letter. */
  predicate IsLower(s: Bytes) {
    forall k :: 0 <= k < |s| ==> !IsUpper(s[k])
  }

  /** Content terms as tokens without boost. */
  function Unboosted(terms: seq<Bytes>): (r: seq<Token>)
    ensures |r| == |terms| && forall k :: 0 <= k < |r| ==> r[k] == Token(terms[k], 0)
  {
    seq(|terms|, k requires 0 <= k < |terms| => Token(terms[k], 0))
  }

  /**
   * What the adder takes from a file: the terms `tokenize` keeps from its
   * content (no boost), the pieces of its lower-cased directory, its
   * lower-cased name without the extension, and the extension as it is.
   */
  function AdderParts(texts: seq<Bytes>, path: Bytes): Parts {
    var sp := SplitPath(path);
    Parts(Unboosted(Terms(texts)), SplitSlash(ToLower(sp.0)), ToLower(TrimExt(sp.1)), Ext(sp.1))
  }

  /**
   * The adder on one file: content terms longer than 2 bytes add 1 each,
   * every directory piece adds 1, the name's left edges share 200 and
   * the extension gets 200; then every term is posted as
   * `id<<10 | min(weight, 1024)` and the map is emptied. The shard and
   * the id `addForward` hands out are inputs here.
   */
  method Adder(u: Uniq, texts: seq<Bytes>, path: Bytes, id: I32) returns (entries: map<Bytes, U32>)
    requires u.counts == map[] && DOT in SplitPath(path).1
    modifies u
    ensures u.counts == map[]
    ensures entries == FileEntries(id, AdderParts(texts, path))
  {
    AdderPartsWeighable(texts, path);
    entries := WeighAndPack(u, AdderParts(texts, path), id);
  }

  /** The parts of a file whose name has a dot: a non-empty extension and no negative boost. */
  lemma AdderPartsWeighable(texts: seq<Bytes>, path: Bytes)
    requires DOT in SplitPath(path).1
    ensures |AdderParts(texts, path).ext| > 0 && NoNegativeBoost(AdderParts(texts, path))
  {
  }

  /** Weighing a file's parts on an empty map, packing every term, emptying the map. */
  method WeighAndPack(u: Uniq, p: Parts, id: I32) returns (entries: map<Bytes, U32>)
    requires u.counts == map[] && |p.ext| > 0 && NoNegativeBoost(p)
    modifies u
    ensures u.counts == map[]
    ensures entries == FileEntries(id, p)
  {
    var counts := Weigh(u, p);
    entries := PackAll(id, counts);
    assert counts.Keys == Keys(p);
    u.counts := map[];
  }

  /** The `range uniq` loop: each term's weight clamped to 1024 and packed with the id. */
  method PackAll(id: I32, counts: map<Bytes, int>) returns (entries: map<Bytes, U32>)
    requires forall t :: t in counts ==> counts[t] >= 0
    ensures entries == EntriesFor(id, counts, counts.Keys)
  {
    entries := map[];
    var rest := counts.Keys;
    ghost var done: set<Bytes> := {};
    while rest != {}
      invariant rest + done == counts.Keys && rest !! done
      invariant entries == EntriesFor(id, counts, done)
      decreases |rest|
    {
      var t :| t in rest;
      EntriesForStep(id, counts, done, t);
      var count := counts[t];
      if count > 1024 {
        count := 1024;
      }
      entries := entries[t := Pack(id, count)];
      rest := rest - {t};
      done := done + {t};
    }
  }

  /** Lower-casing leaves no upper-case letter. */
  lemma LowerIsLower(s: Bytes)
    ensures IsLower(ToLower(s))
  {
  }

  /** The pieces of a lower-case text are lower-case. */
  lemma {:induction false} PiecesLower(s: Bytes)
    requires IsLower(s)
    ensures forall k :: 0 <= k < |SplitSlash(s)| ==> IsLower(SplitSlash(s)[k])
    decreases |s|
  {
    var k := FirstIndex(s, SLASH);
    if k < |s| {
      PiecesLower(s[k + 1..]);
      assert SplitSlash(s) == [s[..k]] + SplitSlash(s[k + 1..]);
    }
  }

  /** Every content term is lower-case: the filter admits no upper-case letter. */
  lemma ContentLower(texts: seq<Bytes>)
    ensures forall t :: t in ContentKeys(Unboosted(Terms(texts)), |Terms(texts)|) ==> IsLower(t)
  {
    var ts := Unboosted(Terms(texts));
    TermsShape(texts);
    forall t | t in ContentKeys(ts, |ts|)
      ensures IsLower(t)
    {
      var k :| 0 <= k < |ts| && |ts[k].text| > 2 && ts[k].text == t;
      assert Terms(texts)[k] in Terms(texts);
    }
  }

  /** The left edges of a lower-case name are lower-case. */
  lemma EdgesLower(base: Bytes)
    requires IsLower(base)
    ensures forall t :: t in EdgeKeys(base, |base|) ==> IsLower(t)
  {
  }

  /** A file whose content terms, directory pieces and name are lower-case has lower-case terms, but for the extension. */
  lemma KeysLower(p: Parts)
    requires forall t :: t in ContentKeys(p.content, |p.content|) ==> IsLower(t)
    requires forall k :: 0 <= k < |p.dirs| ==> IsLower(p.dirs[k])
    requires IsLower(p.base)
    ensures forall t :: t in Keys(p) && t != ExtText(p.ext) ==> IsLower(t)
  {
    EdgesLower(p.base);
    forall t | t in PieceKeys(p.dirs, |p.dirs|)
      ensures IsLower(t)
    {
      var k :| 0 <= k < |p.dirs| && |p.dirs[k]| > 0 && p.dirs[k] == t;
    }
  }

  /**
   * Every term the adder weighs is lower-case, except the extension,
   * which it does not lower-case.
   */
  lemma AdderTermsLower(texts: seq<Bytes>, path: Bytes)
    ensures forall t :: t in Keys(AdderParts(texts, path)) && t != ExtText(AdderParts(texts, path).ext) ==> IsLower(t)
  {
    var sp := SplitPath(path);
    ContentLower(texts);
    LowerIsLower(sp.0);
    PiecesLower(ToLower(sp.0));
    LowerIsLower(TrimExt(sp.1));
    KeysLower(AdderParts(texts, path));
  }
}
