/**
  The index of index/index.go: a list of segments searched one after the
  other. A hit is reported under a composite id whose top byte is the
  segment number and whose low 24 bits are the document ordinal in that
  segment; `FetchForward` decodes such an id back to a path.
*/
module Indexing {
  import opened Bytes
  import opened Stored
  import opened Postings
  import opened Segments
  import opened Queries

  /** `1 << 24`: the composite id keeps the ordinal in its low 24 bits. */
  const SHIFT: int := 0x100_0000

  /** The two query shapes the search handler builds. */
  datatype Query = Single(term: Term) | Conjunction(and: BoolAndQuery)

  /** The arguments of one callback: composite id and score. */
  datatype Hit = Hit(id: I32, score: int)

  /** `int32(i)<<24 | id` for an ordinal below 2^24: the shift wraps in 32 bits. */
  function CompositeId(i: nat, doc: int): (r: I32)
    requires 0 <= doc < SHIFT
    ensures i < 0x80 ==> r == i * SHIFT + doc
    ensures 0x80 <= i < 0x100 ==> r < 0
  {
    Int32Of(i * SHIFT + doc)
  }

  // ---------------------------------------------------------------------
  // What a segment is searched through

  /** The files of a segment a query reads: dictionary header and data, and postings. */
  datatype Files = Files(header: Bytes, data: Bytes, postings: Bytes)

  function FilesOf(s: Segment): Files
    reads s, s.inverted
  {
    Files(s.inverted.header, s.inverted.data, s.postings)
  }

  /** The files of every segment. */
  function AllFiles(segs: seq<Segment>): (r: seq<Files>)
    reads segs, set s | s in segs :: s.inverted
    ensures |r| == |segs| && forall j :: 0 <= j < |segs| ==> r[j] == FilesOf(segs[j])
  {
    if segs == [] then [] else AllFiles(segs[..|segs| - 1]) + [FilesOf(segs[|segs| - 1])]
  }

  /** A dictionary the query engine can walk: sorted terms over ascending lists. */
  predicate SearchableFiles(f: Files) {
    Searchable(f.header, f.data, f.postings)
  }

  /** Document d holds every one of the (at least one) terms. */
  ghost predicate Matches(f: Files, terms: set<Bytes>, d: int) {
    Consistent(f.header, f.data, f.postings) && terms != {} && forall t :: t in terms ==> InDocs(Lookup(f.header, f.data, f.postings, t), d)
  }

  // ---------------------------------------------------------------------
  // Queries

  /** The terms a query asks for. */
  ghost function TermsOf(q: Query): set<Bytes>
    reads if q.Conjunction? then {q.and} else {}
  {
    match q
    case Single(t) => {t.term}
    case Conjunction(a) => TermSet(a.queries)
  }

  /** The terms of a list of term queries. */
  ghost function TermSet(qs: seq<Term>): set<Bytes>
  {
    set t | t in qs :: t.term
  }

  /** The objects a query's steps change. */
  function Footprint(q: Query): set<object>
    reads if q.Conjunction? then {q.and} else {}
  {
    match q
    case Single(t) => {t}
    case Conjunction(a) => {a as object} + set t: object | t in a.queries
  }

  /** How a query leaves `NewTerm` / `NewBoolAndQuery`: the terms of a conjunction are distinct objects. */
  predicate Ready(q: Query)
    reads if q.Conjunction? then {q.and} else {}
  {
    q.Conjunction? ==> Distinct(q.and.queries)
  }

  /** The texts of a query's terms, repeats included: a hit's score sums over them. */
  function QueryTexts(q: Query): seq<Bytes>
    reads if q.Conjunction? then {q.and} else {}
  {
    match q
    case Single(t) => [t.term]
    case Conjunction(a) => TextsOf(a.queries)
  }

  // ---------------------------------------------------------------------
  // Scores

  /**
   * The score the query of terms ts gives document d of a segment: for
   * each term, 1 plus the weight stored for d in that term's list.
   */
  ghost function ScoreOf(f: Files, ts: seq<Bytes>, d: int): int
    requires Consistent(f.header, f.data, f.postings)
  {
    if ts == [] then 0
    else ScoreOf(f, ts[..|ts| - 1], d) + 1 + WeightOf(Lookup(f.header, f.data, f.postings, ts[|ts| - 1]), d)
  }

  /** Each term adds 1 to 1024 to the score. */
  lemma {:induction false} ScoreOfBounds(f: Files, ts: seq<Bytes>, d: int)
    requires Consistent(f.header, f.data, f.postings)
    ensures |ts| <= ScoreOf(f, ts, d) <= 1024 * |ts|
  {
    if ts != [] {
      ScoreOfBounds(f, ts[..|ts| - 1], d);
    }
  }

  /** The score over the terms' lists is the score of the terms. */
  lemma {:induction false} ListScoreOfLookups(f: Files, ts: seq<Bytes>, ps: seq<Bytes>, d: int)
    requires Consistent(f.header, f.data, f.postings)
    requires |ps| == |ts| && forall j :: 0 <= j < |ts| ==> ps[j] == Lookup(f.header, f.data, f.postings, ts[j])
    ensures ListScore(ps, d) == ScoreOf(f, ts, d)
  {
    if ts != [] {
      ListScoreOfLookups(f, ts[..|ts| - 1], ps[..|ps| - 1], d);
    }
  }

  /** The score of two runs of terms is the sum of their scores. */
  lemma {:induction false} ScoreOfConcat(f: Files, a: seq<Bytes>, b: seq<Bytes>, d: int)
    requires Consistent(f.header, f.data, f.postings)
    ensures ScoreOf(f, a + b, d) == ScoreOf(f, a, d) + ScoreOf(f, b, d)
    decreases |b|
  {
    if b == [] {
      assert a + b == a;
    } else {
      ScoreOfConcat(f, a, b[..|b| - 1], d);
      assert (a + b)[..|a + b| - 1] == a + b[..|b| - 1];
    }
  }

  /** The score does not depend on the order of the terms, only on how often each occurs. */
  lemma {:induction false} ScoreOfPerm(f: Files, a: seq<Bytes>, b: seq<Bytes>, d: int)
    requires Consistent(f.header, f.data, f.postings) && multiset(a) == multiset(b)
    ensures ScoreOf(f, a, d) == ScoreOf(f, b, d)
    decreases |a|
  {
    if a == [] {
      assert |b| == |multiset(b)| == 0;
    } else {
      var x := a[|a| - 1];
      assert a == a[..|a| - 1] + [x];
      assert x in multiset(b);
      var i :| 0 <= i < |b| && b[i] == x;
      var rest := b[..i] + b[i + 1..];
      assert b == b[..i] + [x] + b[i + 1..];
      assert multiset(b) == multiset(b[..i]) + multiset{x} + multiset(b[i + 1..]);
      assert multiset(a) == multiset(a[..|a| - 1]) + multiset{x};
      assert multiset(rest) == multiset(b[..i]) + multiset(b[i + 1..]);
      assert multiset(a[..|a| - 1]) == multiset(a) - multiset{x};
      assert multiset(rest) == multiset(b) - multiset{x};
      ScoreOfPerm(f, a[..|a| - 1], rest, d);
      ScoreOfConcat(f, b[..i] + [x], b[i + 1..], d);
      ScoreOfConcat(f, b[..i], [x], d);
      ScoreOfConcat(f, b[..i], b[i + 1..], d);
      var one: seq<Bytes> := [x];
      assert one[..0] == [];
    }
  }

  // ---------------------------------------------------------------------
  // The hits of one segment

  /** Strictly increasing. */
  predicate Increasing(ds: seq<int>) {
    forall j, k :: 0 <= j < k < |ds| ==> ds[j] < ds[k]
  }

  /** hits[k] reports document docs[k] of segment i, with the score the lists ps give it. */
  ghost predicate Reported(hits: seq<Hit>, docs: seq<int>, i: nat, ps: seq<Bytes>) {
    && |hits| == |docs|
    && forall k :: 0 <= k < |docs| ==>
      0 <= docs[k] < 0x40_0000 && hits[k].id == CompositeId(i, docs[k]) && hits[k].score == ListScore(ps, docs[k])
  }

  /** hits[k] reports document docs[k] of segment i, with the score the terms ts give it in f. */
  ghost predicate Scored(hits: seq<Hit>, docs: seq<int>, i: nat, f: Files, ts: seq<Bytes>) {
    && Consistent(f.header, f.data, f.postings)
    && |hits| == |docs|
    && forall k :: 0 <= k < |docs| ==>
      0 <= docs[k] < 0x40_0000 && hits[k].id == CompositeId(i, docs[k]) && hits[k].score == ScoreOf(f, ts, docs[k])
  }

  /** Scores over the terms' lists are the terms' scores. */
  lemma ReportedScored(hits: seq<Hit>, docs: seq<int>, i: nat, f: Files, ts: seq<Bytes>, ps: seq<Bytes>)
    requires Consistent(f.header, f.data, f.postings)
    requires |ps| == |ts| && forall j :: 0 <= j < |ts| ==> ps[j] == Lookup(f.header, f.data, f.postings, ts[j])
    requires Reported(hits, docs, i, ps)
    ensures Scored(hits, docs, i, f, ts)
  {
    forall k | 0 <= k < |docs|
      ensures hits[k].score == ScoreOf(f, ts, docs[k])
    {
      ListScoreOfLookups(f, ts, ps, docs[k]);
    }
  }

  /** Reordering the terms keeps the scores. */
  lemma ScoredPerm(hits: seq<Hit>, docs: seq<int>, i: nat, f: Files, ts: seq<Bytes>, us: seq<Bytes>)
    requires multiset(ts) == multiset(us) && Scored(hits, docs, i, f, ts)
    ensures Scored(hits, docs, i, f, us)
  {
    forall k | 0 <= k < |docs|
      ensures hits[k].score == ScoreOf(f, us, docs[k])
    {
      ScoreOfPerm(f, ts, us, docs[k]);
    }
  }

  /** docs lists, in increasing order, the documents of the intersection of ps below d. */
  ghost predicate Collected(docs: seq<int>, ps: seq<Bytes>, d: int) {
    Increasing(docs) && forall x :: x in docs <==> x < d && InAll(ps, x)
  }

  lemma ReportStep(hits: seq<Hit>, docs: seq<int>, i: nat, ps: seq<Bytes>, d: int, score: int)
    requires Reported(hits, docs, i, ps) && 0 <= d < 0x40_0000 && score == ListScore(ps, d)
    ensures Reported(hits + [Hit(CompositeId(i, d), score)], docs + [d], i, ps)
  {
  }

  /** Nothing of a (non-empty) intersection lies below its first document. */
  lemma CollectStart(ps: seq<Bytes>, d: int)
    requires |ps| > 0 && IsAndCeil(ps, 0, d)
    ensures Collected([], ps, d)
  {
    forall x | x < d
      ensures !InAll(ps, x)
    {
      if x < 0 {
        NoNegativeDoc(ps[0], x);
      }
    }
  }

  /** Document ids are never negative. */
  lemma NoNegativeDoc(p: Bytes, x: int)
    ensures x < 0 ==> !InDocs(p, x)
  {
  }

  /** d is a document of the intersection of at least one list, so a document id. */
  lemma OnDocument(ps: seq<Bytes>, d: int)
    requires |ps| > 0 && InAll(ps, d)
    ensures 0 <= d < 0x40_0000
  {
    assert InDocs(ps[0], d);
  }

  /** The intersection of one list is that list. */
  lemma OneList(p: Bytes, y: int)
    ensures InAll([p], y) <==> InDocs(p, y)
  {
    assert [p][0] == p;
  }

  /** Reporting d and moving on to the next document of the intersection keeps the documents collected. */
  lemma CollectStep(docs: seq<int>, ps: seq<Bytes>, d: int, d2: int)
    requires |ps| > 0 && Collected(docs, ps, d) && InAll(ps, d) && IsAndCeil(ps, d + 1, d2)
    ensures Collected(docs + [d], ps, d2) && d < d2 <= NO_MORE
  {
    forall j | 0 <= j < |docs|
      ensures docs[j] < d
    {
      assert docs[j] in docs;
    }
    assert InDocs(ps[0], d);
    if d2 != NO_MORE {
      assert InDocs(ps[0], d2);
    }
  }

  /** The ceiling of one list is the ceiling of the intersection of that list alone. */
  lemma SingleCeil(p: Bytes, x: int, d: int)
    requires IsCeil(p, x, d)
    ensures IsAndCeil([p], x, d)
  {
    forall y | x <= y < d
      ensures !InAll([p], y)
    {
      OneList(p, y);
    }
    OneList(p, d);
  }

  /** What a single term collects is the documents matching it. */
  lemma TermMatches(f: Files, term: Bytes, docs: seq<int>)
    requires SearchableFiles(f)
    requires Collected(docs, [Lookup(f.header, f.data, f.postings, term)], NO_MORE)
    ensures forall d :: d in docs <==> Matches(f, {term}, d)
  {
    var p := Lookup(f.header, f.data, f.postings, term);
    forall d
      ensures d in docs <==> Matches(f, {term}, d)
    {
      OneList(p, d);
      assert term in {term};
      if InDocs(p, d) {
        OnDocument([p], d);
      }
    }
  }

  /** A document matches the terms of a prepared conjunction exactly when it is in the intersection of their lists. */
  lemma MatchesAll(f: Files, qs: seq<Term>, ps: seq<Bytes>, d: int)
    requires Consistent(f.header, f.data, f.postings) && |qs| == |ps| > 0
    requires forall j :: 0 <= j < |qs| ==> ps[j] == Lookup(f.header, f.data, f.postings, qs[j].term)
    ensures Matches(f, TermSet(qs), d) <==> InAll(ps, d)
  {
    assert qs[0] in qs && qs[0].term in TermSet(qs);
    if InAll(ps, d) {
      forall t | t in TermSet(qs)
        ensures InDocs(Lookup(f.header, f.data, f.postings, t), d)
      {
        var u :| u in qs && u.term == t;
        var j :| 0 <= j < |qs| && qs[j] == u;
        assert InDocs(ps[j], d);
      }
    }
    if Matches(f, TermSet(qs), d) {
      forall j | 0 <= j < |ps|
        ensures InDocs(ps[j], d)
      {
        assert qs[j] in qs && qs[j].term in TermSet(qs);
      }
    }
  }

  /** The lists a prepared conjunction walks are those of its terms, so the intersection is the terms' matches. */
  lemma IntersectionOfTerms(f: Files, qs: seq<Term>, ps: seq<Bytes>, docs: seq<int>)
    requires SearchableFiles(f) && |qs| == |ps| > 0
    requires forall j :: 0 <= j < |qs| ==> ps[j] == Lookup(f.header, f.data, f.postings, qs[j].term)
    requires Collected(docs, ps, NO_MORE)
    ensures forall d :: d in docs <==> Matches(f, TermSet(qs), d)
  {
    forall d
      ensures d in docs <==> Matches(f, TermSet(qs), d)
    {
      MatchesAll(f, qs, ps, d);
      if InAll(ps, d) {
        OnDocument(ps, d);
      }
    }
  }

  /**
   * One segment's turn of `ExecuteQuery` for a single term: every
   * document of the term's list, in increasing order, with 1 plus the
   * weight stored for it as its score.
   */
  method RunTerm(t: Term, s: Segment, ghost f: Files, i: nat) returns (hits: seq<Hit>, ghost docs: seq<int>)
    requires f == FilesOf(s) && SearchableFiles(f)
    modifies t
    ensures Scored(hits, docs, i, f, [t.term]) && Increasing(docs)
    ensures forall d :: d in docs <==> Matches(f, {t.term}, d)
  {
    t.Prepare(s);
    ghost var p := t.postings;
    LookupAscending(f.header, f.data, f.postings, t.term);
    hits, docs := [], [];
    var d := t.Next();
    SingleCeil(p, 0, d);
    CollectStart([p], d);
    while d != NO_MORE
      invariant t.Positioned() && t.postings == p && d == t.docId
      invariant Reported(hits, docs, i, [p]) && Collected(docs, [p], d)
      invariant d <= NO_MORE && (d < NO_MORE ==> InAll([p], d))
      decreases NO_MORE - d
    {
      var score := t.Score();
      WeightOfAt(p, t.cursor);
      var one: seq<Bytes> := [p];
      assert one[..0] == [];
      ReportStep(hits, docs, i, [p], d, score);
      hits := hits + [Hit(CompositeId(i, d), score)];
      ghost var d0 := d;
      d := t.Next();
      SingleCeil(p, d0 + 1, d);
      CollectStep(docs, [p], d0, d);
      docs := docs + [d0];
    }
    TermMatches(f, t.term, docs);
    ReportedScored(hits, docs, i, f, [t.term], [p]);
  }

  /**
   * One segment's turn of `ExecuteQuery` for a conjunction: every
   * document holding all the terms, in increasing order, with the sum of
   * the terms' scores for it as its score.
   */
  method RunConjunction(a: BoolAndQuery, s: Segment, ghost f: Files, i: nat) returns (hits: seq<Hit>, ghost docs: seq<int>)
    requires f == FilesOf(s) && SearchableFiles(f) && Distinct(a.queries)
    modifies a, a.queries
    ensures |a.queries| == old(|a.queries|) && forall t :: t in a.queries <==> t in old(a.queries)
    ensures multiset(TextsOf(a.queries)) == old(multiset(TextsOf(a.queries)))
    ensures Distinct(a.queries)
    ensures Scored(hits, docs, i, f, TextsOf(a.queries)) && Increasing(docs)
    ensures forall d :: d in docs <==> Matches(f, TermSet(a.queries), d)
  {
    ghost var q0 := a.queries;
    a.Prepare(s);
    ghost var qs := a.queries;
    assert |qs| == |q0| && forall t :: t in qs <==> t in q0;
    assert forall k :: 0 <= k < |qs| ==> qs[k] in q0;
    assert FilesOf(s) == f;
    ghost var ps := ListsOf(qs);
    assert forall j :: 0 <= j < |ps| ==> ps[j] == Lookup(f.header, f.data, f.postings, qs[j].term);
    hits, docs := CollectAnd(a, ps, i);
    if |ps| > 0 {
      IntersectionOfTerms(f, qs, ps, docs);
    }
    ReportedScored(hits, docs, i, f, TextsOf(qs), ps);
  }

  /** The loop of one segment's turn over a prepared conjunction walking the lists ps. */
  method CollectAnd(a: BoolAndQuery, ghost ps: seq<Bytes>, i: nat) returns (hits: seq<Hit>, ghost docs: seq<int>)
    requires a.Valid() && a.Fresh() && Over(a.queries, ps)
    modifies a, a.queries
    ensures a.queries == old(a.queries)
    ensures Reported(hits, docs, i, ps)
    ensures |ps| > 0 ==> Collected(docs, ps, NO_MORE)
    ensures |ps| == 0 ==> docs == []
  {
    ghost var qs := a.queries;
    assert ListsOf(qs) == ps;
    hits, docs := [], [];
    var d := a.Next();
    if |ps| > 0 {
      CollectStart(ps, d);
    }
    while d != NO_MORE
      invariant a.queries == qs && a.Valid() && Over(qs, ps) && d == a.docId
      invariant d <= NO_MORE && (d < NO_MORE ==> |ps| > 0 && a.Settled() && InAll(ps, d))
      invariant Reported(hits, docs, i, ps)
      invariant |ps| > 0 ==> Collected(docs, ps, d)
      invariant |ps| == 0 ==> docs == []
      decreases NO_MORE - d
    {
      hits, docs, d := AndStep(a, ps, i, hits, docs, d);
    }
  }

  /** One turn of that loop: reports the current document and moves to the next of the intersection. */
  method AndStep(a: BoolAndQuery, ghost ps: seq<Bytes>, i: nat, hits: seq<Hit>, ghost docs: seq<int>, d: int)
    returns (hits': seq<Hit>, ghost docs': seq<int>, d': int)
    requires a.Valid() && Over(a.queries, ps) && |ps| > 0 && d == a.docId && a.Settled() && InAll(ps, d)
    requires Reported(hits, docs, i, ps) && Collected(docs, ps, d)
    modifies a, a.queries
    ensures a.queries == old(a.queries) && a.Valid() && Over(a.queries, ps) && d' == a.docId
    ensures d < d' <= NO_MORE && (d' < NO_MORE ==> a.Settled() && InAll(ps, d'))
    ensures Reported(hits', docs', i, ps) && Collected(docs', ps, d')
  {
    var score := AndScore(a, ps, d);
    OnDocument(ps, d);
    ReportStep(hits, docs, i, ps, d, score);
    hits' := hits + [Hit(CompositeId(i, d), score)];
    assert ListsOf(a.queries) == ps;
    d' := a.Next();
    CollectStep(docs, ps, d, d');
    docs' := docs + [d];
  }

  /** The score of a settled conjunction: the score its lists give the document it rests on. */
  method AndScore(a: BoolAndQuery, ghost ps: seq<Bytes>, d: int) returns (score: int)
    requires a.Valid() && Over(a.queries, ps) && d == a.docId && a.Settled()
    ensures score == ListScore(ps, d)
  {
    assert AllAscending(ps);
    SettledScores(a.queries, ps, d);
    score := a.Score();
  }

  /**
   * A settled conjunction sits on an entry of every list, so `Score` may
   * read them, and the sum it reads is the score the lists give d.
   */
  lemma SettledScores(qs: seq<Term>, ps: seq<Bytes>, d: int)
    requires Over(qs, ps) && AllAscending(ps) && 0 <= d < NO_MORE
    requires forall j :: 0 <= j < |qs| ==> qs[j].Positioned() && qs[j].docId == d
    ensures forall j :: 0 <= j < |qs| ==> 0 <= qs[j].cursor < Entries(qs[j].postings)
    ensures ScoreSum(qs, |qs|) == ListScore(ps, d)
  {
    ScoreSumOnDoc(qs, ps, d, |qs|);
    assert ps[..|qs|] == ps;
  }

  /** One segment's turn of `ExecuteQuery`: prepares the query on the segment and reports each document it steps to. */
  method RunQuery(q: Query, s: Segment, ghost f: Files, i: nat) returns (hits: seq<Hit>, ghost docs: seq<int>)
    requires Ready(q) && f == FilesOf(s) && SearchableFiles(f)
    modifies Footprint(q)
    ensures Ready(q) && TermsOf(q) == old(TermsOf(q)) && multiset(QueryTexts(q)) == old(multiset(QueryTexts(q)))
    ensures Footprint(q) <= old(Footprint(q))
    ensures Scored(hits, docs, i, f, QueryTexts(q)) && Increasing(docs)
    ensures forall d :: d in docs <==> Matches(f, TermsOf(q), d)
  {
    match q {
      case Single(t) =>
        hits, docs := RunTerm(t, s, f, i);
      case Conjunction(a) =>
        ghost var before := a.queries;
        hits, docs := RunConjunction(a, s, f, i);
        SameTerms(a.queries, before);
    }
  }

  // ---------------------------------------------------------------------
  // All segments

  /** Tags every document of segment i with the segment. */
  function Tag(i: nat, docs: seq<int>): (r: seq<(nat, int)>)
    ensures |r| == |docs| && forall k :: 0 <= k < |docs| ==> r[k] == (i, docs[k])
  {
    seq(|docs|, k requires 0 <= k < |docs| => (i, docs[k]))
  }

  /**
   * One hit of the first n segments: it reports document src.1 of
   * segment src.0, which holds every term, under its composite id, and
   * its score is the one the query's terms ts give that document.
   */
  ghost predicate HitOk(files: seq<Files>, terms: set<Bytes>, ts: seq<Bytes>, hit: Hit, src: (nat, int), n: nat) {
    && src.0 < n && src.0 < |files| && 0 <= src.1 < 0x40_0000
    && hit.id == CompositeId(src.0, src.1)
    && Matches(files[src.0], terms, src.1)
    && hit.score == ScoreOf(files[src.0], ts, src.1)
  }

  /** Every hit so far is one of the first n segments. */
  ghost predicate Sound(files: seq<Files>, terms: set<Bytes>, ts: seq<Bytes>, hits: seq<Hit>, from: seq<(nat, int)>, n: nat) {
    |from| == |hits| && forall k :: 0 <= k < |hits| ==> HitOk(files, terms, ts, hits[k], from[k], n)
  }

  /** By segment, then by increasing ordinal. */
  predicate InOrder(from: seq<(nat, int)>) {
    forall j, k :: 0 <= j < k < |from| ==>
      from[j].0 < from[k].0 || (from[j].0 == from[k].0 && from[j].1 < from[k].1)
  }

  /** Every match of the first n segments is reported. */
  ghost predicate Complete(files: seq<Files>, terms: set<Bytes>, from: seq<(nat, int)>, n: nat) {
    forall i, d :: 0 <= i < n && i < |files| && Matches(files[i], terms, d) ==> (i, d) in from
  }

  /** Appending segment n's hits, all matches of segment n, keeps the hits sound. */
  lemma ExtendSound(files: seq<Files>, terms: set<Bytes>, ts: seq<Bytes>, hits: seq<Hit>, from: seq<(nat, int)>,
                    h: seq<Hit>, docs: seq<int>, n: nat)
    requires n < |files|
    requires Sound(files, terms, ts, hits, from, n)
    requires Scored(h, docs, n, files[n], ts)
    requires forall d :: d in docs ==> Matches(files[n], terms, d)
    ensures Sound(files, terms, ts, hits + h, from + Tag(n, docs), n + 1)
  {
    var hits', from' := hits + h, from + Tag(n, docs);
    forall k | 0 <= k < |hits'|
      ensures HitOk(files, terms, ts, hits'[k], from'[k], n + 1)
    {
      if k < |hits| {
        assert hits'[k] == hits[k] && from'[k] == from[k];
        assert HitOk(files, terms, ts, hits[k], from[k], n);
      } else {
        var m := k - |hits|;
        assert hits'[k] == h[m] && from'[k] == (n, docs[m]);
        assert docs[m] in docs;
      }
    }
  }

  /** Appending segment n's hits, in increasing order, after those of earlier segments keeps the order. */
  lemma ExtendOrder(from: seq<(nat, int)>, docs: seq<int>, n: nat)
    requires InOrder(from) && (forall k :: 0 <= k < |from| ==> from[k].0 < n)
    requires Increasing(docs)
    ensures InOrder(from + Tag(n, docs))
  {
  }

  /** Appending all matches of segment n keeps the hits complete. */
  lemma ExtendComplete(files: seq<Files>, terms: set<Bytes>, from: seq<(nat, int)>, docs: seq<int>, n: nat)
    requires n < |files|
    requires Complete(files, terms, from, n)
    requires forall d :: Matches(files[n], terms, d) ==> d in docs
    ensures Complete(files, terms, from + Tag(n, docs), n + 1)
  {
    var from' := from + Tag(n, docs);
    forall d | Matches(files[n], terms, d)
      ensures (n, d) in from'
    {
      var k :| 0 <= k < |docs| && docs[k] == d;
      assert from'[|from| + k] == (n, d);
    }
  }

  // ---------------------------------------------------------------------
  // The index

  class Index {
    var segments: seq<Segment>

    /** `NewIndex`, with the segments the glob found given in order. */
    constructor (segments: seq<Segment>)
      ensures this.segments == segments
    {
      this.segments := segments;
    }

    /** The forward arrays of all segments. */
    function Forwards(): set<object>
      reads this
    {
      set s | s in segments :: s.forward
    }

    /**
     * `ExecuteQuery`: the hits of segment 0 in increasing ordinal order,
     * then those of segment 1, and so on. Each hit is a document holding
     * every term of the query, under its composite id, with the score the
     * query's terms give it, and every such document is reported.
     */
    method ExecuteQuery(q: Query) returns (hits: seq<Hit>, ghost from: seq<(nat, int)>)
      requires Ready(q)
      requires forall s :: s in segments ==> SearchableFiles(FilesOf(s))
      modifies Footprint(q)
      ensures TermsOf(q) == old(TermsOf(q)) && Ready(q) && multiset(QueryTexts(q)) == old(multiset(QueryTexts(q)))
      ensures Sound(AllFiles(segments), TermsOf(q), old(QueryTexts(q)), hits, from, |segments|)
      ensures InOrder(from)
      ensures Complete(AllFiles(segments), TermsOf(q), from, |segments|)
    {
      var segs := segments;
      ghost var files := AllFiles(segs);
      ghost var terms := TermsOf(q);
      ghost var ts := QueryTexts(q);
      assert forall j :: 0 <= j < |files| ==> SearchableFiles(files[j]) by {
        forall j | 0 <= j < |files|
          ensures SearchableFiles(files[j])
        {
          assert segs[j] in segments;
        }
      }
      ghost var fp := Footprint(q);
      assert this !in fp && forall j :: 0 <= j < |segs| ==> segs[j] !in fp && segs[j].inverted !in fp;
      hits, from := [], [];
      for i := 0 to |segs|
        invariant Ready(q) && TermsOf(q) == terms && multiset(QueryTexts(q)) == multiset(ts)
        invariant Footprint(q) <= fp
        invariant forall j :: 0 <= j < |segs| ==> FilesOf(segs[j]) == files[j]
        invariant Sound(files, terms, ts, hits, from, i) && InOrder(from) && Complete(files, terms, from, i)
      {
        var h: seq<Hit>;
        ghost var docs: seq<int>;
        h, docs := RunQuery(q, segs[i], files[i], i);
        ScoredPerm(h, docs, i, files[i], QueryTexts(q), ts);
        ExtendSound(files, terms, ts, hits, from, h, docs, i);
        ExtendOrder(from, docs, i);
        ExtendComplete(files, terms, from, docs, i);
        hits := hits + h;
        from := from + Tag(i, docs);
      }
      assert files == AllFiles(segs);
    }

    /**
     * `FetchForward`: the path of a composite id. The segment is `id >> 24`
     * (an arithmetic shift, so a negative id gives a negative segment) and
     * the ordinal `id & 0xFFFFFF`. The guard turns away segments past the
     * end but lets `len(segments)` itself through, which indexes out of
     * range; the stored array's own `read` may turn the ordinal away too.
     */
    function FetchForward(id: int): (r: ReadResult)
      reads this, Forwards()
      ensures id < 0 ==> r == Missing
    {
      var segment := id / SHIFT;
      var ordinal := id % SHIFT;
      if segment < 0 || segment > |segments| then Missing
      else if segment == |segments| then Panic
      else
        var f := segments[segment].forward;
        assert f in Forwards();
        Read(f.header, f.data, ordinal)
    }

    /** A hit of one of the first 128 segments fetches the path stored under its ordinal. */
    lemma FetchHit(i: nat, doc: int)
      requires i < |segments| && i < 0x80 && 0 <= doc < SHIFT
      ensures FetchForward(CompositeId(i, doc)) == Read(segments[i].forward.header, segments[i].forward.data, doc)
    {
      assert (i * SHIFT + doc) / SHIFT == i;
      assert (i * SHIFT + doc) % SHIFT == doc;
    }

    /** A hit of segments 128 to 255 carries a negative id, which fetches nothing. */
    lemma FetchHighSegment(i: nat, doc: int)
      requires 0x80 <= i < 0x100 && 0 <= doc < SHIFT
      ensures FetchForward(CompositeId(i, doc)) == Missing
    {
    }

    /** An id naming the segment one past the last indexes out of range. */
    lemma FetchPastEnd(doc: int)
      requires 0 <= doc < SHIFT
      ensures FetchForward(|segments| * SHIFT + doc) == Panic
    {
      assert (|segments| * SHIFT + doc) / SHIFT == |segments|;
    }

    /**
     * `Stats`: the number of paths over all forward arrays and the number
     * of terms over all dictionaries.
     */
    method Stats() returns (total: int, approxterms: int)
      ensures total == ForwardCount(segments, |segments|)
      ensures approxterms == TermCount(segments, |segments|)
    {
      total, approxterms := 0, 0;
      for i := 0 to |segments|
        invariant total == ForwardCount(segments, i)
        invariant approxterms == TermCount(segments, i)
      {
        total := total + Count(segments[i].forward.header);
        approxterms := approxterms + Count(segments[i].inverted.header);
      }
    }
  }

  /** Preparing a conjunction only reorders its terms, so it asks for the same terms. */
  lemma SameTerms(qs: seq<Term>, before: seq<Term>)
    requires forall t :: t in qs <==> t in before
    ensures TermSet(qs) == TermSet(before)
  {
  }

  /** The number of paths of the first n segments. */
  function ForwardCount(segs: seq<Segment>, n: nat): (r: nat)
    requires n <= |segs|
    reads set s | s in segs :: s.forward
    ensures n > 0 ==> r >= Count(segs[n - 1].forward.header)
  {
    if n == 0 then 0 else ForwardCount(segs, n - 1) + Count(segs[n - 1].forward.header)
  }

  /** The number of terms of the first n segments. */
  function TermCount(segs: seq<Segment>, n: nat): (r: nat)
    requires n <= |segs|
    reads set s | s in segs :: s.inverted
    ensures n > 0 ==> r >= Count(segs[n - 1].inverted.header)
  {
    if n == 0 then 0 else TermCount(segs, n - 1) + Count(segs[n - 1].inverted.header)
  }

  /** The paths of a new segment's forward buffer after the given ones are added. */
  function Placeheld(paths: seq<Bytes>): (r: seq<Bytes>)
    ensures |r| == 100 + |paths| && forall k :: 0 <= k < |r| ==> r[k] == if k < 100 then [] else paths[k - 100]
    ensures Fits(paths) ==> Fits(r)
  {
    seq(100, _ => []) + paths
  }

  /** The header of the forward array `flushToDisk` writes from those paths, every extra 0. */
  function PlaceheldHeader(paths: seq<Bytes>): Bytes
    requires Fits(paths)
  {
    HeaderFile(Placeheld(paths), seq(100 + |paths|, _ => 0))
  }

  /**
   * A forward array flushed from a new segment counts its 100 empty
   * placeholder paths with the indexed ones, so `Stats` reports 100
   * paths more per segment than files were added.
   */
  lemma PlaceholdersCounted(paths: seq<Bytes>)
    requires Fits(paths) && |DataFile(Placeheld(paths))| < TWO_32
    ensures Count(PlaceheldHeader(paths)) == 100 + |paths|
  {
    WriteThenRead(Placeheld(paths), seq(100 + |paths|, _ => 0));
  }

  /**
   * Such an array reads the empty path back under ordinals 0 to 99, and
   * the k-th added path under ordinal 100 + k.
   */
  lemma PlaceholdersRead(paths: seq<Bytes>, k: U32)
    requires Fits(paths) && |DataFile(Placeheld(paths))| < TWO_32 && 16 * (100 + |paths|) < TWO_32
    requires k < 100 + |paths|
    ensures Read(PlaceheldHeader(paths), DataFile(Placeheld(paths)), k) == Item(if k < 100 then [] else paths[k - 100])
  {
    ReadAfterWrite(Placeheld(paths), seq(100 + |paths|, _ => 0), k);
  }
}
