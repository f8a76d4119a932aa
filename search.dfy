// The search handler of main.go: query assembly from the scanned query
// text, the bounded insertion-sorted list of the best hits, and the
// counter of every hit reported.

module Search {
  import opened Bytes
  import opened Stored
  import opened QueryTerms
  import opened Queries
  import opened Indexing

  /** `maxSize`: the handler keeps at most this many hits. */
  const MAX_SIZE: nat := 100

  function Min(a: nat, b: nat): nat {
    if a <= b then a else b
  }

  /** Best first: scores never increase along the list. */
  predicate Descending(hs: seq<Hit>) {
    forall j, k :: 0 <= j < k < |hs| ==> hs[j].score >= hs[k].score
  }

  // ---------------------------------------------------------------------
  // Where a hit goes

  /** The position of the first hit scoring strictly less than s, or |hs|. */
  function FirstBelow(hs: seq<Hit>, s: int): (i: nat)
    ensures i <= |hs|
    ensures forall j :: 0 <= j < i ==> hs[j].score >= s
    ensures i < |hs| ==> hs[i].score < s
  {
    if |hs| == 0 then 0
    else if hs[0].score < s then 0
    else 1 + FirstBelow(hs[1..], s)
  }

  /** The two properties of `FirstBelow` single out one position. */
  lemma FirstBelowUnique(hs: seq<Hit>, s: int, i: nat)
    requires i <= |hs|
    requires forall j :: 0 <= j < i ==> hs[j].score >= s
    requires i < |hs| ==> hs[i].score < s
    ensures i == FirstBelow(hs, s)
  {
  }

  /** h inserted after every hit scoring at least as much as it. */
  function Placed(hs: seq<Hit>, h: Hit): (r: seq<Hit>)
    ensures |r| == |hs| + 1
    ensures r[FirstBelow(hs, h.score)] == h
  {
    var i := FirstBelow(hs, h.score);
    hs[..i] + [h] + hs[i..]
  }

  /** Placing a hit adds exactly that hit. */
  lemma PlacedMultiset(hs: seq<Hit>, h: Hit)
    ensures multiset(Placed(hs, h)) == multiset(hs) + multiset{h}
  {
    var i := FirstBelow(hs, h.score);
    assert hs == hs[..i] + hs[i..];
    assert Placed(hs, h) == hs[..i] + [h] + hs[i..];
  }

  /** Placing a hit keeps the list best first. */
  lemma PlacedDescending(hs: seq<Hit>, h: Hit)
    requires Descending(hs)
    ensures Descending(Placed(hs, h))
  {
    var i := FirstBelow(hs, h.score);
    var r := Placed(hs, h);
    assert r == hs[..i] + [h] + hs[i..];
    assert forall k :: 0 <= k < i ==> r[k] == hs[k] && r[k].score >= h.score;
    assert forall k :: i < k < |r| ==> r[k] == hs[k - 1] && r[k].score < h.score;
  }

  lemma PlacedFacts(hs: seq<Hit>, h: Hit)
    ensures multiset(Placed(hs, h)) == multiset(hs) + multiset{h}
    ensures Descending(hs) ==> Descending(Placed(hs, h))
  {
    PlacedMultiset(hs, h);
    if Descending(hs) {
      PlacedDescending(hs, h);
    }
  }

  /**
   * What `add` does to the list: below the cap the hit is placed; at the
   * cap it is placed and the last hit dropped, but only when it beats the
   * last hit.
   */
  function Offered(hs: seq<Hit>, h: Hit): (r: seq<Hit>)
    ensures |hs| < MAX_SIZE ==> |r| == |hs| + 1
    ensures |hs| >= MAX_SIZE ==> |r| == |hs|
    ensures |hs| >= MAX_SIZE && h.score <= hs[|hs| - 1].score ==> r == hs
  {
    if |hs| < MAX_SIZE then Placed(hs, h)
    else if hs[|hs| - 1].score < h.score then Placed(hs, h)[..|hs|]
    else hs
  }

  /** `add` keeps the list best first. */
  lemma OfferedDescending(hs: seq<Hit>, h: Hit)
    requires Descending(hs)
    ensures Descending(Offered(hs, h))
  {
    PlacedFacts(hs, h);
  }

  /** Below the cap `add` adds the hit; at the cap a better hit replaces the last one. */
  lemma OfferedContents(hs: seq<Hit>, h: Hit)
    ensures |hs| < MAX_SIZE ==> multiset(Offered(hs, h)) == multiset(hs) + multiset{h}
    ensures |hs| >= MAX_SIZE && hs[|hs| - 1].score < h.score ==>
      multiset(Offered(hs, h)) + multiset{hs[|hs| - 1]} == multiset(hs) + multiset{h} && h in Offered(hs, h)
  {
    PlacedFacts(hs, h);
    if |hs| >= MAX_SIZE && hs[|hs| - 1].score < h.score {
      var p := Placed(hs, h);
      var i := FirstBelow(hs, h.score);
      assert p[|hs|] == hs[|hs| - 1];
      assert p == p[..|hs|] + [p[|hs|]];
      assert p[..|hs|][i] == h;
    }
  }

  // ---------------------------------------------------------------------
  // Every hit seen

  /** All hits seen, best first and equal scores in arrival order. */
  function Ranked(seen: seq<Hit>): (r: seq<Hit>)
    ensures |r| == |seen|
  {
    if |seen| == 0 then []
    else Placed(Ranked(seen[..|seen| - 1]), seen[|seen| - 1])
  }

  /** The ranking is best first and holds exactly the hits seen. */
  lemma {:induction false} RankedFacts(seen: seq<Hit>)
    ensures multiset(Ranked(seen)) == multiset(seen)
    ensures Descending(Ranked(seen))
  {
    if |seen| > 0 {
      var prev := seen[..|seen| - 1];
      RankedFacts(prev);
      PlacedFacts(Ranked(prev), seen[|seen| - 1]);
      assert seen == prev + [seen[|seen| - 1]];
    }
  }

  /** What the handler's list holds after the hits seen were added in order. */
  function Kept(seen: seq<Hit>): (r: seq<Hit>)
    ensures |r| == Min(|seen|, MAX_SIZE)
  {
    if |seen| == 0 then []
    else Offered(Kept(seen[..|seen| - 1]), seen[|seen| - 1])
  }

  /** The hits of one score, in order. */
  function WithScore(hs: seq<Hit>, s: int): seq<Hit> {
    if |hs| == 0 then []
    else (if hs[0].score == s then [hs[0]] else []) + WithScore(hs[1..], s)
  }

  lemma {:induction false} WithScoreAppend(a: seq<Hit>, b: seq<Hit>, s: int)
    ensures WithScore(a + b, s) == WithScore(a, s) + WithScore(b, s)
  {
    if |a| > 0 {
      assert (a + b)[1..] == a[1..] + b;
      WithScoreAppend(a[1..], b, s);
    } else {
      assert a + b == b;
    }
  }

  /** Below the first hit scoring less than s, no hit scores s. */
  lemma {:induction false} NoneOfScore(hs: seq<Hit>, s: int)
    requires Descending(hs) && (|hs| > 0 ==> hs[0].score < s)
    ensures WithScore(hs, s) == []
  {
    if |hs| > 0 {
      NoneOfScore(hs[1..], s);
    }
  }

  /** Placing a hit puts it after every earlier hit of its score. */
  lemma PlacedStable(hs: seq<Hit>, h: Hit, s: int)
    requires Descending(hs)
    ensures WithScore(Placed(hs, h), s) == WithScore(hs, s) + WithScore([h], s)
  {
    var i := FirstBelow(hs, h.score);
    assert hs == hs[..i] + hs[i..];
    WithScoreAppend(hs[..i] + [h], hs[i..], s);
    WithScoreAppend(hs[..i], [h], s);
    WithScoreAppend(hs[..i], hs[i..], s);
    if s == h.score {
      NoneOfScore(hs[i..], s);
    } else {
      assert WithScore([h], s) == [];
    }
  }

  /** Equal scores keep the order in which they arrived. */
  lemma {:induction false} RankedStable(seen: seq<Hit>, s: int)
    ensures WithScore(Ranked(seen), s) == WithScore(seen, s)
  {
    if |seen| > 0 {
      var prev := seen[..|seen| - 1];
      var h := seen[|seen| - 1];
      RankedStable(prev, s);
      RankedFacts(prev);
      PlacedStable(Ranked(prev), h, s);
      assert seen == prev + [h];
      WithScoreAppend(prev, [h], s);
    }
  }

  /** A hit beating the m-th one lands among the first m, wherever the list is cut. */
  lemma PrefixBelow(hs: seq<Hit>, h: Hit, m: nat)
    requires 0 < m <= |hs| && hs[m - 1].score < h.score
    ensures Placed(hs, h)[..m] == Placed(hs[..m], h)[..m]
  {
    var i := FirstBelow(hs, h.score);
    assert i < m;
    FirstBelowUnique(hs[..m], h.score, i);
    var p := Placed(hs, h);
    var q := Placed(hs[..m], h);
    assert p == hs[..i] + [h] + hs[i..];
    assert q == hs[..m][..i] + [h] + hs[..m][i..];
    assert forall k :: 0 <= k < m ==> p[k] == q[k];
  }

  /** A hit not beating the m-th one leaves the first m in place. */
  lemma PrefixAbove(hs: seq<Hit>, h: Hit, m: nat)
    requires Descending(hs) && 0 < m <= |hs| && hs[m - 1].score >= h.score
    ensures Placed(hs, h)[..m] == hs[..m]
  {
    var i := FirstBelow(hs, h.score);
    assert i < |hs| ==> hs[m - 1].score >= hs[i].score;
    assert m <= i;
    var p := Placed(hs, h);
    assert p == hs[..i] + [h] + hs[i..];
    assert forall k :: 0 <= k < m ==> p[k] == hs[k];
  }

  /** Cutting the full ranking at m is what `add` makes of its first m hits. */
  lemma PlacedPrefix(hs: seq<Hit>, h: Hit, m: nat)
    requires Descending(hs) && 0 < m <= |hs|
    ensures Placed(hs, h)[..m] == if hs[m - 1].score < h.score then Placed(hs[..m], h)[..m] else hs[..m]
  {
    if hs[m - 1].score < h.score {
      PrefixBelow(hs, h, m);
    } else {
      PrefixAbove(hs, h, m);
    }
  }

  /**
   * The list holds the best hits seen: the first `maxSize` of the full
   * ranking, so it is a bounded, best-first selection in which equal
   * scores go to the earlier hits.
   */
  lemma {:induction false} KeptIsTop(seen: seq<Hit>)
    ensures Kept(seen) == Ranked(seen)[..Min(|seen|, MAX_SIZE)]
  {
    if |seen| > 0 {
      KeptIsTop(seen[..|seen| - 1]);
      KeptStep(seen[..|seen| - 1], seen[|seen| - 1], seen);
    }
  }

  /** One more hit: `add` on the cut ranking is the cut of the new ranking. */
  lemma KeptStep(prev: seq<Hit>, h: Hit, seen: seq<Hit>)
    requires seen == prev + [h]
    requires Kept(prev) == Ranked(prev)[..Min(|prev|, MAX_SIZE)]
    ensures Kept(seen) == Ranked(seen)[..Min(|seen|, MAX_SIZE)]
  {
    assert seen[..|seen| - 1] == prev;
    var f := Ranked(prev);
    assert Ranked(seen) == Placed(f, h);
    assert Kept(seen) == Offered(Kept(prev), h);
    if |prev| < MAX_SIZE {
      KeptBelowCap(f, h, Kept(prev));
    } else {
      RankedFacts(prev);
      KeptAtCap(f, h, Kept(prev));
    }
  }

  lemma KeptBelowCap(f: seq<Hit>, h: Hit, k: seq<Hit>)
    requires |f| < MAX_SIZE && k == f[..Min(|f|, MAX_SIZE)]
    ensures Offered(k, h) == Placed(f, h)[..Min(|f| + 1, MAX_SIZE)]
  {
    assert k == f;
    var p := Placed(f, h);
    assert p[..|p|] == p;
  }

  lemma KeptAtCap(f: seq<Hit>, h: Hit, k: seq<Hit>)
    requires Descending(f) && |f| >= MAX_SIZE && k == f[..Min(|f|, MAX_SIZE)]
    ensures Offered(k, h) == Placed(f, h)[..Min(|f| + 1, MAX_SIZE)]
  {
    assert |k| == MAX_SIZE && k[MAX_SIZE - 1] == f[MAX_SIZE - 1];
    PlacedPrefix(f, h, MAX_SIZE);
  }

  /**
   * The `copy` shift and slot assignment of `add`: the hits from position
   * i on move down by one, the last falls off and h takes position i.
   */
  lemma ShiftInto(before: seq<Hit>, h: Hit, i: nat, grow: bool)
    requires i == FirstBelow(before, h.score) && i < |before|
    ensures var start := if grow then before + [h] else before;
      (start[..i + 1] + start[i..|start| - 1])[i := h]
        == if grow then Placed(before, h) else Placed(before, h)[..|before|]
  {
    var start := if grow then before + [h] else before;
    var shifted := (start[..i + 1] + start[i..|start| - 1])[i := h];
    assert start[..i] == before[..i];
    assert start[i..|start| - 1] == if grow then before[i..] else before[i..|before| - 1];
    assert shifted == start[..i] + [h] + start[i..|start| - 1];
  }

  // ---------------------------------------------------------------------
  // The handler's state

  /** The `hits` slice and the `total` counter of one search request. */
  class TopHits {
    var hits: seq<Hit>
    var total: nat

    constructor ()
      ensures hits == [] && total == 0
    {
      hits := [];
      total := 0;
    }

    predicate Valid()
      reads this
    {
      |hits| <= MAX_SIZE && Descending(hits)
    }

    /**
     * `add`: appends below the cap; at the cap only a hit beating the last
     * one is taken. A taken hit goes in front of the first strictly worse
     * hit, the ones after it shift down by one and the last falls off.
     */
    method Add(h: Hit)
      requires Valid()
      modifies this
      ensures hits == Offered(old(hits), h) && total == old(total)
      ensures Valid()
    {
      ghost var before := hits;
      ghost var grow := |hits| < MAX_SIZE;
      var insert := false;
      if |hits| < MAX_SIZE {
        hits := hits + [h];
        insert := true;
      } else if hits[|hits| - 1].score < h.score {
        insert := true;
      }
      if insert {
        Insert(h, before, grow);
      } else {
        assert hits == Offered(before, h);
      }
      OfferedDescending(before, h);
    }

    /**
     * The insertion loop of `add`: h goes in front of the first hit scoring
     * strictly less; the hits from there on shift down by one and the
     * last one falls off. With `grow`, h was appended first, so it stays
     * last when no hit scores less.
     */
    method Insert(h: Hit, ghost before: seq<Hit>, ghost grow: bool)
      requires hits == if grow then before + [h] else before
      requires !grow ==> |before| > 0 && before[|before| - 1].score < h.score
      modifies this
      ensures hits == if grow then Placed(before, h) else Placed(before, h)[..|before|]
      ensures total == old(total)
    {
      ghost var start := hits;
      var i := 0;
      while i < |hits|
        invariant i <= |hits| && hits == start && total == old(total)
        invariant forall j :: 0 <= j < i ==> hits[j].score >= h.score
        invariant forall j :: 0 <= j < i && j < |before| ==> before[j].score >= h.score
      {
        if hits[i].score < h.score {
          assert i < |before|;
          FirstBelowUnique(before, h.score, i);
          ShiftInto(before, h, i, grow);
          hits := hits[..i + 1] + hits[i..|hits| - 1];
          hits := hits[i := h];
          return;
        }
        i := i + 1;
      }
      if grow {
        FirstBelowUnique(before, h.score, |before|);
        assert before + [h] == before[..|before|] + [h] + before[|before|..];
      }
    }

    /** The query callback: every hit counts, whether or not it is kept. */
    method Report(id: I32, score: int)
      requires Valid()
      modifies this
      ensures total == old(total) + 1
      ensures hits == Offered(old(hits), Hit(id, score))
      ensures Valid()
    {
      total := total + 1;
      Add(Hit(id, score));
    }
  }

  // ---------------------------------------------------------------------
  // The request

  /** The distinct terms of a list. */
  ghost function Elements(ts: seq<Bytes>): set<Bytes> {
    set t | t in ts
  }

  /**
   * Query assembly: one `Term` per scanned token; exactly one token is
   * searched on its own, any other number (none included) becomes an AND
   * over all of them.
   */
  method BuildQuery(texts: seq<Bytes>) returns (q: Query)
    ensures q.Single? <==> |Terms(texts)| == 1
    ensures fresh(Footprint(q)) && Ready(q)
    ensures TermsOf(q) == Elements(Terms(texts)) && QueryTexts(q) == Terms(texts)
  {
    var terms := Tokenize(texts);
    var queries: seq<Term> := [];
    for k := 0 to |terms|
      invariant |queries| == k && Distinct(queries)
      invariant forall j :: 0 <= j < k ==> fresh(queries[j]) && queries[j].term == terms[j]
    {
      var t := new Term(terms[k]);
      queries := queries + [t];
    }
    if |queries| == 1 {
      q := Single(queries[0]);
      assert terms == [terms[0]];
    } else {
      var a := new BoolAndQuery(queries);
      q := Conjunction(a);
      assert TermSet(queries) == Elements(terms) by {
        forall x | x in Elements(terms)
          ensures x in TermSet(queries)
        {
          var j :| 0 <= j < |terms| && terms[j] == x;
          assert queries[j] in queries;
        }
      }
    }
  }

  /** An empty query: no term, so no document matches and nothing is reported. */
  lemma NoTermsNoHits(files: seq<Files>, ts: seq<Bytes>, hits: seq<Hit>, from: seq<(nat, int)>, n: nat)
    requires Sound(files, {}, ts, hits, from, n)
    ensures |hits| == 0
  {
    assert |hits| > 0 ==> !HitOk(files, {}, ts, hits[0], from[0], n);
  }

  /** The `executeQuery` callback over every reported hit, in order. */
  method Collect(all: seq<Hit>) returns (top: seq<Hit>, total: nat)
    ensures total == |all| && top == Kept(all)
  {
    var list := new TopHits();
    for k := 0 to |all|
      invariant list.Valid() && list.total == k && list.hits == Kept(all[..k])
    {
      assert all[..k + 1][..k] == all[..k];
      list.Report(all[k].id, all[k].score);
    }
    assert all[..|all|] == all;
    top, total := list.hits, list.total;
  }

  /** The path of every kept hit, looked up by its composite id. */
  method Resolve(index: Index, top: seq<Hit>) returns (paths: seq<ReadResult>)
    ensures |paths| == |top|
    ensures forall k :: 0 <= k < |top| ==> paths[k] == index.FetchForward(top[k].id)
  {
    paths := [];
    for k := 0 to |top|
      invariant |paths| == k && forall j :: 0 <= j < k ==> paths[j] == index.FetchForward(top[j].id)
    {
      paths := paths + [index.FetchForward(top[k].id)];
    }
  }

  /**
   * The query of a request run against the index: `all` are the hits in
   * the order the index reports them and `from` where each comes from.
   */
  method Run(index: Index, texts: seq<Bytes>) returns (all: seq<Hit>, ghost from: seq<(nat, int)>)
    requires forall s :: s in index.segments ==> SearchableFiles(FilesOf(s))
    ensures Sound(AllFiles(index.segments), Elements(Terms(texts)), Terms(texts), all, from, |index.segments|)
    ensures InOrder(from) && Complete(AllFiles(index.segments), Elements(Terms(texts)), from, |index.segments|)
    ensures Terms(texts) == [] ==> all == []
  {
    var q := BuildQuery(texts);
    ghost var files := AllFiles(index.segments);
    all, from := index.ExecuteQuery(q);
    assert AllFiles(index.segments) == files;
    if Terms(texts) == [] {
      NoTermsNoHits(files, [], all, from, |index.segments|);
    }
  }

  /**
   * One search request against an index: the query is run, every hit is
   * counted and offered to the list, the kept hits are resolved to paths
   * and the index's totals are read.
   */
  method Search(index: Index, texts: seq<Bytes>)
    returns (top: seq<Hit>, total: nat, paths: seq<ReadResult>, files: int, approxterms: int,
             all: seq<Hit>, ghost from: seq<(nat, int)>)
    requires forall s :: s in index.segments ==> SearchableFiles(FilesOf(s))
    ensures Sound(AllFiles(index.segments), Elements(Terms(texts)), Terms(texts), all, from, |index.segments|)
    ensures InOrder(from) && Complete(AllFiles(index.segments), Elements(Terms(texts)), from, |index.segments|)
    ensures total == |all| && top == Kept(all)
    ensures |paths| == |top| && forall k :: 0 <= k < |top| ==> paths[k] == index.FetchForward(top[k].id)
    ensures files == ForwardCount(index.segments, |index.segments|)
    ensures approxterms == TermCount(index.segments, |index.segments|)
  {
    all, from := Run(index, texts);
    ghost var before := AllFiles(index.segments);
    top, total := Collect(all);
    paths := Resolve(index, top);
    files, approxterms := index.Stats();
    assert AllFiles(index.segments) == before;
  }
}
