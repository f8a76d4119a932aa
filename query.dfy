/**
  The query iterators of index/query.go. A `Term` walks one postings list
  with a cursor; `BoolAndQuery` intersects and `BoolOrQuery` unites the
  document sets of its sub-queries, both over `Term`s.

  Each iterator reports its current document id in `docId`, starting at
  `NOT_READY` and ending at `NO_MORE`. The results are stated against the
  document sets of the lists: `IsCeil(p, x, d)` says that d is the least
  document of list p at or above x (or `NO_MORE`), and `IsAndCeil` and
  `IsOrCeil` say the same of the intersection and the union of lists.
*/
module Queries {
  import opened Bytes
  import opened Stored
  import opened Postings
  import opened Segments

  // ---------------------------------------------------------------------
  // Document sets of several lists

  /** d is a document of every list. */
  predicate InAll(ps: seq<Bytes>, d: int) {
    forall j :: 0 <= j < |ps| ==> InDocs(ps[j], d)
  }

  /** d is a document of some list. */
  predicate InAny(ps: seq<Bytes>, d: int) {
    exists j :: 0 <= j < |ps| && InDocs(ps[j], d)
  }

  /** No document of the intersection lies in [lo, hi). */
  predicate NoneInAll(ps: seq<Bytes>, lo: int, hi: int) {
    forall d :: lo <= d < hi ==> !InAll(ps, d)
  }

  /** No document of any list lies in [lo, hi). */
  predicate NoneInAny(ps: seq<Bytes>, lo: int, hi: int) {
    forall j :: 0 <= j < |ps| ==> NoDocIn(ps[j], lo, hi)
  }

  /** r is the least document of the intersection at or above lo, or `NO_MORE`. */
  predicate IsAndCeil(ps: seq<Bytes>, lo: int, r: int) {
    && (r == NO_MORE || (lo <= r && InAll(ps, r)))
    && NoneInAll(ps, lo, r)
  }

  /** r is the least document of the union at or above lo, or `NO_MORE`. */
  predicate IsOrCeil(ps: seq<Bytes>, lo: int, r: int) {
    && (r == NO_MORE || (lo <= r && InAny(ps, r)))
    && NoneInAny(ps, lo, r)
  }

  // ---------------------------------------------------------------------
  // Term

  class Term {
    var cursor: int
    var postings: Bytes
    var docId: int
    const term: Bytes

    /** `NewTerm`: not ready, cursor 0, no postings bound yet. */
    constructor (term: Bytes)
      ensures this.term == term && cursor == 0 && docId == NOT_READY && postings == []
    {
      this.term := term;
      cursor := 0;
      docId := NOT_READY;
      postings := [];
    }

    /** Freshly prepared: `Next` will read the first entry. */
    predicate Unstarted()
      reads this
    {
      cursor == 0 && docId == NOT_READY
    }

    /** On the entry at the cursor, or at `NO_MORE` past the end (what `move` leaves). */
    predicate Positioned()
      reads this
    {
      0 <= cursor && docId == DocOrEnd(postings, cursor)
    }

    /** The states `Prepare`, `Next` and `advance` keep a term in (short of the exhausted-term quirk). */
    predicate Sane()
      reads this
    {
      0 <= cursor && (Unstarted() || docId == DocOrEnd(postings, cursor) || docId == NO_MORE)
    }

    /**
     * `Prepare`: rewinds the term and binds it to its postings list in the
     * segment, which is the list `Lookup` specifies when the dictionary is sorted
     * and `bsearch` reaches all of it.
     */
    method Prepare(s: Segment)
      requires Consistent(s.inverted.header, s.inverted.data, s.postings)
      modifies this
      ensures Unstarted() && Sane()
      ensures SortedItems(s.inverted.header, s.inverted.data) && Count(s.inverted.header) <= MAX_SEARCHED ==> postings == Lookup(s.inverted.header, s.inverted.data, s.postings, term)
    {
      cursor := 0;
      docId := NOT_READY;
      postings := s.FindPostingsList(term);
    }

    /** `Cost`: the number of entries, as a uint32. */
    function Cost(): (r: U32)
      reads this
      ensures Entries(postings) < TWO_32 ==> r == Entries(postings)
    {
      Entries(postings) % TWO_32
    }

    /** `Score`: 1 plus the weight bits of the entry at the cursor. */
    function Score(): (r: int)
      reads this
      requires 0 <= cursor < Entries(postings)
      ensures 1 <= r <= 1024
      ensures r - 1 == Entry(postings, cursor) % 1024
    {
      1 + WeightAt(postings, cursor)
    }

    /** `move`: puts the cursor at `to` and reads its document, or `NO_MORE` past the end. */
    method Move(to: int) returns (r: int)
      requires 0 <= to
      modifies this
      ensures cursor == to && docId == DocOrEnd(postings, to) && r == docId
      ensures postings == old(postings) && Positioned()
    {
      cursor := to;
      if cursor >= Entries(postings) {
        docId := NO_MORE;
      } else {
        docId := DocAt(postings, cursor);
      }
      return docId;
    }

    /**
     * `Next`: the first call after `Prepare` reads entry 0, later calls
     * step the cursor by one. On an ascending list the result is the
     * least document above the previous one.
     */
    method Next() returns (r: int)
      requires Sane()
      modifies this
      ensures r == docId && postings == old(postings) && Positioned()
      ensures cursor == (if old(docId) == NOT_READY then old(cursor) else old(cursor) + 1)
      ensures old(Unstarted()) && Ascending(postings) ==> IsCeil(postings, 0, r)
      ensures old(Positioned()) && old(docId) < NO_MORE && Ascending(postings) ==> IsCeil(postings, old(docId) + 1, r)
    {
      ghost var wasPositioned := Positioned();
      ghost var d := docId;
      if docId != NOT_READY {
        cursor := cursor + 1;
      }
      r := Move(cursor);
      if Ascending(postings) {
        if old(Unstarted()) {
          CeilAtLowerBound(postings, 0, cursor);
        } else if wasPositioned && d < NO_MORE {
          NextLowerBound(postings, cursor - 1);
          CeilAtLowerBound(postings, d + 1, cursor);
        }
      }
    }

    /**
     * `advance(target)`. On an exhausted term, on the current document or
     * for `NO_MORE` it only sets `docId` to the target, even below an
     * exhausted position. Otherwise it binary-searches from the cursor
     * on, so the cursor never moves back; on an ascending list the result
     * is the least document at or above the target when the current one
     * is below it, and the term stays where it is when the current one
     * is above it.
     */
    method Advance(target: I32) returns (r: int)
      requires Sane()
      modifies this
      ensures r == docId && postings == old(postings)
      ensures old(docId) == NO_MORE || old(docId) == target || target == NO_MORE ==> docId == target && cursor == old(cursor)
      ensures !(old(docId) == NO_MORE || old(docId) == target || target == NO_MORE) ==> old(cursor) <= cursor && Positioned()
      ensures old(docId) != NO_MORE || target == NO_MORE ==> Sane()
      ensures old(docId) < target && Ascending(postings) ==> IsCeil(postings, target, r)
      ensures old(Positioned()) && target < old(docId) < NO_MORE && Ascending(postings) ==> docId == old(docId) && cursor == old(cursor)
    {
      if docId == NO_MORE || docId == target || target == NO_MORE {
        docId := target;
        return docId;
      }
      ghost var c0 := cursor;
      var start := cursor;
      var end := Entries(postings);
      while start < end
        invariant c0 <= start <= end <= Entries(postings)
        invariant cursor == c0 && docId == old(docId) && postings == old(postings)
        invariant Ascending(postings) ==> forall k :: c0 <= k < start ==> DocAt(postings, k) < target
        invariant Ascending(postings) ==> forall k :: end <= k < Entries(postings) ==> DocAt(postings, k) > target
      {
        var mid := start + (end - start) / 2;
        var current := DocAt(postings, mid);
        if current == target {
          cursor := mid;
          docId := target;
          assert Positioned();
          return docId;
        }
        if current < target {
          if Ascending(postings) {
            AscendingBelow(postings, mid, target);
          }
          start := mid + 1;
        } else {
          if Ascending(postings) {
            AscendingAbove(postings, mid, target);
          }
          end := mid;
        }
      }
      ghost var below := old(docId) < target && Ascending(postings);
      if below {
        BeforeCursor(postings, c0, old(docId), target);
      }
      r := Move(start);
      if below {
        CeilAtLowerBound(postings, target, start);
      }
    }
  }

  /** Past a position of an ascending list, documents only grow. */
  lemma NextLowerBound(p: Bytes, c: nat)
    requires Ascending(p) && c < Entries(p)
    ensures IsLowerBound(p, 0, DocAt(p, c) + 1, c + 1)
  {
  }

  lemma AscendingBelow(p: Bytes, mid: nat, target: int)
    requires Ascending(p) && mid < Entries(p) && DocAt(p, mid) < target
    ensures forall k :: 0 <= k <= mid ==> DocAt(p, k) < target
  {
  }

  lemma AscendingAbove(p: Bytes, mid: nat, target: int)
    requires Ascending(p) && mid < Entries(p) && DocAt(p, mid) > target
    ensures forall k :: mid <= k < Entries(p) ==> DocAt(p, k) > target
  {
  }

  /** A sane term below the target has only smaller documents before its cursor. */
  lemma BeforeCursor(p: Bytes, c0: nat, d: int, target: int)
    requires Ascending(p) && d < target && d != NO_MORE
    requires (c0 == 0 && d == NOT_READY) || d == DocOrEnd(p, c0)
    ensures forall k :: 0 <= k < c0 ==> DocAt(p, k) < target
  {
    if d != NOT_READY || c0 != 0 {
      assert c0 < Entries(p);
    }
  }

  /** A term resting on document d (not at an end) sits on an entry holding d. */
  lemma OnDoc(t: Term, d: int)
    requires t.Sane() && t.docId == d && 0 <= d < NO_MORE
    ensures t.Positioned() && t.cursor < Entries(t.postings) && InDocs(t.postings, d)
  {
  }

  // ---------------------------------------------------------------------
  // Sub-query lists

  /** The postings list of each term, in order. */
  function ListsOf(qs: seq<Term>): (r: seq<Bytes>)
    reads qs
    ensures |r| == |qs| && forall j :: 0 <= j < |qs| ==> r[j] == qs[j].postings
  {
    if qs == [] then [] else ListsOf(qs[..|qs| - 1]) + [qs[|qs| - 1].postings]
  }

  /** The current document of each term, in order. */
  function DocsOf(qs: seq<Term>): (r: seq<int>)
    reads qs
    ensures |r| == |qs| && forall j :: 0 <= j < |qs| ==> r[j] == qs[j].docId
  {
    if qs == [] then [] else DocsOf(qs[..|qs| - 1]) + [qs[|qs| - 1].docId]
  }

  /** The text of each term, in order. */
  function TextsOf(qs: seq<Term>): (r: seq<Bytes>)
    ensures |r| == |qs| && forall j :: 0 <= j < |qs| ==> r[j] == qs[j].term
  {
    seq(|qs|, j requires 0 <= j < |qs| => qs[j].term)
  }

  /** No term appears twice, so stepping one leaves the others alone. */
  predicate Distinct(qs: seq<Term>) {
    forall i, j :: 0 <= i < j < |qs| ==> qs[i] != qs[j]
  }

  /** Every term is in a sane state over an ascending list. */
  predicate AllReady(qs: seq<Term>)
    reads qs
  {
    forall j :: 0 <= j < |qs| ==> qs[j].Sane() && Ascending(qs[j].postings)
  }

  predicate AllSane(qs: seq<Term>)
    reads qs
  {
    forall j :: 0 <= j < |qs| ==> qs[j].Sane()
  }

  predicate AllAscending(ps: seq<Bytes>) {
    forall j :: 0 <= j < |ps| ==> Ascending(ps[j])
  }

  /** The terms walk the lists ps. */
  predicate Over(qs: seq<Term>, ps: seq<Bytes>)
    reads qs
  {
    |qs| == |ps| && forall j :: 0 <= j < |qs| ==> qs[j].postings == ps[j]
  }

  /** Every term at or beyond t has skipped no document of its list from t on. */
  predicate NoneSkipped(qs: seq<Term>, ps: seq<Bytes>, t: int)
    reads qs
    requires |qs| == |ps|
  {
    forall j :: 0 <= j < |qs| && qs[j].docId >= t ==> NoDocIn(ps[j], t, qs[j].docId)
  }

  /** The ceiling of the first list bounds the intersection from below. */
  lemma FirstListGap(ps: seq<Bytes>, lo: int, hi: int)
    requires |ps| > 0 && NoDocIn(ps[0], lo, hi)
    ensures NoneInAll(ps, lo, hi)
  {
    forall d | lo <= d < hi
      ensures !InAll(ps, d)
    {
      assert !InDocs(ps[0], d);
    }
  }

  /** Restarting the intersection at t2 skips nothing: list i has no document in [target, di), list 0 none in [di, t2). */
  lemma Restart(ps: seq<Bytes>, lo: int, target: int, i: nat, di: int, t2: int)
    requires i < |ps| && NoneInAll(ps, lo, target) && target <= di <= t2
    requires NoDocIn(ps[i], target, di) && NoDocIn(ps[0], di, t2)
    ensures NoneInAll(ps, lo, t2)
  {
    forall d | lo <= d < t2
      ensures !InAll(ps, d)
    {
      if d >= target {
        if d < di {
          assert !InDocs(ps[i], d);
        } else {
          assert !InDocs(ps[0], d);
        }
      }
    }
  }

  /** A ceiling that is not x itself is also the ceiling of any y up to it. */
  lemma CeilRaise(p: Bytes, x: int, y: int, d: int)
    requires IsCeil(p, x, d) && x <= y <= d
    ensures IsCeil(p, y, d)
  {
  }

  /** The least of the documents, `NO_MORE` for none: what the union loops compute. */
  function LeastOr(ds: seq<int>): int {
    if ds == [] then NO_MORE
    else if ds[|ds| - 1] < LeastOr(ds[..|ds| - 1]) then ds[|ds| - 1]
    else LeastOr(ds[..|ds| - 1])
  }

  lemma {:induction false} LeastOrBounds(ds: seq<int>)
    ensures forall j :: 0 <= j < |ds| ==> LeastOr(ds) <= ds[j]
    ensures LeastOr(ds) == NO_MORE || exists j :: 0 <= j < |ds| && LeastOr(ds) == ds[j]
  {
    if ds != [] {
      LeastOrBounds(ds[..|ds| - 1]);
    }
  }

  /** The least of the lists' ceilings of lo is the ceiling of lo in their union. */
  lemma {:induction false} MinOfCeils(ps: seq<Bytes>, lo: int, ds: seq<int>, m: int)
    requires |ds| == |ps| && forall j :: 0 <= j < |ps| ==> IsCeil(ps[j], lo, ds[j])
    requires forall j :: 0 <= j < |ps| ==> m <= ds[j]
    requires m == NO_MORE || exists j :: 0 <= j < |ps| && m == ds[j]
    ensures IsOrCeil(ps, lo, m)
    ensures lo <= m && m < NO_MORE ==> forall j :: 0 <= j < |ps| ==> IsCeil(ps[j], m, ds[j])
  {
    if m != NO_MORE {
      var j :| 0 <= j < |ps| && m == ds[j];
      assert InDocs(ps[j], m);
    }
    forall j | 0 <= j < |ps|
      ensures NoDocIn(ps[j], lo, m)
    {
      assert NoDocIn(ps[j], lo, ds[j]);
    }
  }

  // ---------------------------------------------------------------------
  // Shared preparation of boolean queries

  /**
   * `BoolQueryBase.Prepare`: prepares every sub-query on the segment and
   * orders them by ascending cost (any such order: `sort.Sort` is not stable).
   */
  method PrepareAll(qs: seq<Term>, s: Segment) returns (sorted: seq<Term>)
    requires Distinct(qs) && Consistent(s.inverted.header, s.inverted.data, s.postings)
    modifies qs
    ensures |sorted| == |qs| && Distinct(sorted) && forall t :: t in sorted <==> t in qs
    ensures multiset(TextsOf(sorted)) == multiset(TextsOf(qs))
    ensures forall t :: t in qs ==> t.Unstarted() && t.Sane()
    ensures forall t :: t in qs ==> SortedItems(s.inverted.header, s.inverted.data) && Count(s.inverted.header) <= MAX_SEARCHED ==> t.postings == Lookup(s.inverted.header, s.inverted.data, s.postings, t.term)
    ensures forall i, j :: 0 <= i < j < |sorted| ==> sorted[i].Cost() <= sorted[j].Cost()
  {
    for i := 0 to |qs|
      invariant forall j :: 0 <= j < i ==> qs[j].Unstarted() && qs[j].Sane()
      invariant forall j :: 0 <= j < i ==> SortedItems(s.inverted.header, s.inverted.data) && Count(s.inverted.header) <= MAX_SEARCHED ==> qs[j].postings == Lookup(s.inverted.header, s.inverted.data, s.postings, qs[j].term)
    {
      qs[i].Prepare(s);
    }
    sorted := SortByCost(qs);
  }

  /** Sane terms holding the lists `Lookup` gives them on a searchable dictionary are ready to step. */
  lemma LookedUpReady(qs: seq<Term>, header: Bytes, data: Bytes, postings: Bytes)
    requires Consistent(header, data, postings)
    requires forall j :: 0 <= j < |qs| ==> qs[j].Sane()
    requires SortedItems(header, data) && Count(header) <= MAX_SEARCHED ==>
      forall j :: 0 <= j < |qs| ==> qs[j].postings == Lookup(header, data, postings, qs[j].term)
    ensures Searchable(header, data, postings) ==> AllReady(qs)
  {
    if Searchable(header, data, postings) {
      forall j | 0 <= j < |qs|
        ensures Ascending(qs[j].postings)
      {
        LookupAscending(header, data, postings, qs[j].term);
      }
    }
  }

  /** `sort.Sort(ByCost(...))`: the same terms, ordered by ascending cost. */
  method SortByCost(qs: seq<Term>) returns (sorted: seq<Term>)
    requires Distinct(qs)
    ensures |sorted| == |qs| && Distinct(sorted) && forall t :: t in sorted <==> t in qs
    ensures multiset(TextsOf(sorted)) == multiset(TextsOf(qs))
    ensures forall i, j :: 0 <= i < j < |sorted| ==> sorted[i].Cost() <= sorted[j].Cost()
  {
    sorted := [];
    for i := 0 to |qs|
      invariant |sorted| == i && Distinct(sorted)
      invariant forall t :: t in sorted <==> t in qs[..i]
      invariant multiset(TextsOf(sorted)) == multiset(TextsOf(qs[..i]))
      invariant forall a, b :: 0 <= a < b < |sorted| ==> sorted[a].Cost() <= sorted[b].Cost()
    {
      assert qs[i] !in qs[..i];
      sorted := InsertByCost(sorted, qs[i]);
      assert qs[..i + 1] == qs[..i] + [qs[i]];
      assert TextsOf(qs[..i + 1]) == TextsOf(qs[..i]) + [qs[i].term];
    }
    assert qs[..|qs|] == qs;
  }

  /** Inserts t after every term of no greater cost, keeping the order by cost. */
  method InsertByCost(sorted: seq<Term>, t: Term) returns (r: seq<Term>)
    requires Distinct(sorted) && t !in sorted
    requires forall a, b :: 0 <= a < b < |sorted| ==> sorted[a].Cost() <= sorted[b].Cost()
    ensures |r| == |sorted| + 1 && Distinct(r) && forall u :: u in r <==> u in sorted || u == t
    ensures multiset(TextsOf(r)) == multiset(TextsOf(sorted)) + multiset{t.term}
    ensures forall a, b :: 0 <= a < b < |r| ==> r[a].Cost() <= r[b].Cost()
  {
    var k := 0;
    while k < |sorted| && sorted[k].Cost() <= t.Cost()
      invariant 0 <= k <= |sorted|
      invariant forall a :: 0 <= a < k ==> sorted[a].Cost() <= t.Cost()
    {
      k := k + 1;
    }
    r := sorted[..k] + [t] + sorted[k..];
    assert forall a :: 0 <= a < k ==> r[a] == sorted[a];
    assert r[k] == t;
    assert forall a :: k < a < |r| ==> r[a] == sorted[a - 1];
    forall a, b | 0 <= a < b < |r|
      ensures r[a].Cost() <= r[b].Cost() && r[a] != r[b]
    {
      if a == k {
        assert sorted[k].Cost() > t.Cost();
      }
    }
    assert r == sorted[..k] + [t] + sorted[k..];
    InsertTexts(sorted, t, k);
  }

  /** Putting t at position k adds its text to the texts. */
  lemma InsertTexts(qs: seq<Term>, t: Term, k: nat)
    requires k <= |qs|
    ensures multiset(TextsOf(qs[..k] + [t] + qs[k..])) == multiset(TextsOf(qs)) + multiset{t.term}
  {
    var ts := TextsOf(qs);
    assert TextsOf(qs[..k] + [t] + qs[k..]) == ts[..k] + [t.term] + ts[k..];
    assert ts == ts[..k] + ts[k..];
  }

  /** The sum of the sub-query scores over the first n terms. */
  function ScoreSum(qs: seq<Term>, n: nat): int
    reads qs
    requires n <= |qs| && forall j :: 0 <= j < |qs| ==> 0 <= qs[j].cursor < Entries(qs[j].postings)
  {
    if n == 0 then 0 else ScoreSum(qs, n - 1) + qs[n - 1].Score()
  }

  /**
   * The score a query over the lists ps gives document d, read off the
   * stored entries: 1 plus the weight of d's entry, summed over the lists.
   */
  ghost function ListScore(ps: seq<Bytes>, d: int): int
  {
    if ps == [] then 0 else ListScore(ps[..|ps| - 1], d) + 1 + WeightOf(ps[|ps| - 1], d)
  }

  /**
   * Terms resting together on document d over ascending lists: the sum of
   * their scores is the score the lists give d.
   */
  lemma {:induction false} ScoreSumOnDoc(qs: seq<Term>, ps: seq<Bytes>, d: int, n: nat)
    requires Over(qs, ps) && AllAscending(ps) && n <= |qs|
    requires forall j :: 0 <= j < |qs| ==> 0 <= qs[j].cursor < Entries(qs[j].postings) && DocAt(qs[j].postings, qs[j].cursor) == d
    ensures ScoreSum(qs, n) == ListScore(ps[..n], d)
  {
    if n > 0 {
      ScoreSumOnDoc(qs, ps, d, n - 1);
      assert ps[..n][..n - 1] == ps[..n - 1];
      WeightOfAt(ps[n - 1], qs[n - 1].cursor);
    }
  }

  /** The sum of the scores of the first n terms resting on document d. */
  function MatchSum(qs: seq<Term>, d: int, n: nat): int
    reads qs
    requires n <= |qs| && forall j :: 0 <= j < |qs| && qs[j].docId == d ==> 0 <= qs[j].cursor < Entries(qs[j].postings)
  {
    if n == 0 then 0
    else MatchSum(qs, d, n - 1) + (if qs[n - 1].docId == d then qs[n - 1].Score() else 0)
  }

  /** The sum of the first n sub-query costs (as unbounded integers). */
  function CostSum(qs: seq<Term>, n: nat): nat
    reads qs
    requires n <= |qs|
  {
    if n == 0 then 0 else CostSum(qs, n - 1) + qs[n - 1].Cost()
  }

  /**
   * One turn of the `nextAndedDoc` loop: sub-query i catches up with the
   * target; when it overshoots, sub-query 0 advances to where it landed
   * and that is the new target (the loop then restarts).
   */
  method Align(qs: seq<Term>, i: nat, target: int, ghost lo: int, ghost ps: seq<Bytes>) returns (t2: int)
    requires Distinct(qs) && AllReady(qs) && Over(qs, ps) && 1 <= i < |qs|
    requires lo <= target <= NO_MORE && qs[0].docId == target
    requires NoneInAll(ps, lo, target) && NoneSkipped(qs, ps, target)
    modifies qs[0], qs[i]
    ensures AllReady(qs) && Over(qs, ps)
    ensures target <= t2 <= NO_MORE && qs[0].docId == t2
    ensures NoneInAll(ps, lo, t2) && NoneSkipped(qs, ps, t2)
    ensures t2 == target ==> qs[i].docId == target
  {
    var sub := qs[i];
    if sub.docId < target {
      var _ := sub.Advance(target);
    }
    t2 := target;
    if sub.docId != target {
      var di := sub.docId;
      t2 := qs[0].Advance(di);
      Restart(ps, lo, target, i, di, t2);
    }
  }

  /**
   * The loop of `BoolAndQuery.nextAndedDoc`: aligns sub-queries 1, 2, ...
   * on the target of sub-query 0, restarting from sub-query 0 whenever one
   * overshoots, until all of them are on one document.
   */
  method AlignAll(qs: seq<Term>, target0: int, ghost lo: int, ghost ps: seq<Bytes>) returns (target: int)
    requires Distinct(qs) && AllReady(qs) && Over(qs, ps) && |qs| > 0
    requires lo <= target0 <= NO_MORE && qs[0].docId == target0
    requires NoneInAll(ps, lo, target0) && NoneSkipped(qs, ps, target0)
    modifies qs
    ensures AllReady(qs) && Over(qs, ps)
    ensures target0 <= target <= NO_MORE && forall j :: 0 <= j < |qs| ==> qs[j].docId == target
    ensures NoneInAll(ps, lo, target)
  {
    target := target0;
    var i := 1;
    while i < |qs|
      invariant 1 <= i <= |qs|
      invariant AllReady(qs) && Over(qs, ps)
      invariant target0 <= target <= NO_MORE && qs[0].docId == target
      invariant forall j :: 1 <= j < i ==> qs[j].docId == target
      invariant NoneInAll(ps, lo, target) && NoneSkipped(qs, ps, target)
      decreases NO_MORE - target, |qs| - i
    {
      var t2 := Align(qs, i, target, lo, ps);
      if t2 != target {
        target := t2;
        i := 0;
      }
      i := i + 1;
    }
  }

  /** Every term on the same document d below `NO_MORE`: d is in the intersection. */
  lemma Intersected(qs: seq<Term>, ps: seq<Bytes>, lo: int, d: int)
    requires AllReady(qs) && Over(qs, ps) && |qs| > 0 && 0 <= lo <= d <= NO_MORE
    requires forall j :: 0 <= j < |qs| ==> qs[j].docId == d
    requires NoneInAll(ps, lo, d)
    ensures IsAndCeil(ps, lo, d)
    ensures d < NO_MORE ==> forall j :: 0 <= j < |qs| ==> qs[j].Positioned()
  {
    forall j | 0 <= j < |qs| && d < NO_MORE
      ensures qs[j].Positioned() && InDocs(ps[j], d)
    {
      OnDoc(qs[j], d);
    }
  }

  // ---------------------------------------------------------------------
  // Conjunction

  class BoolAndQuery {
    var queries: seq<Term>
    var docId: int

    /** `NewBoolAndQuery`. */
    constructor (queries: seq<Term>)
      ensures this.queries == queries && docId == NOT_READY
    {
      this.queries := queries;
      docId := NOT_READY;
    }

    predicate Valid()
      reads this, queries
    {
      Distinct(queries) && AllReady(queries)
    }

    /** Every sub-query freshly prepared. */
    predicate Fresh()
      reads this, queries
    {
      forall j :: 0 <= j < |queries| ==> queries[j].Unstarted()
    }

    /** Every sub-query on the document the last step returned. */
    predicate Settled()
      reads this, queries
    {
      && |queries| > 0 && 0 <= docId < NO_MORE
      && forall j :: 0 <= j < |queries| ==> queries[j].Positioned() && queries[j].docId == docId
    }

    /** `Prepare` (of `BoolQueryBase`): prepares the sub-queries and orders them by cost. */
    method Prepare(s: Segment)
      requires Distinct(queries) && Consistent(s.inverted.header, s.inverted.data, s.postings)
      modifies this, queries
      ensures |queries| == old(|queries|) && forall t :: t in queries <==> t in old(queries)
      ensures multiset(TextsOf(queries)) == old(multiset(TextsOf(queries)))
      ensures Distinct(queries) && Fresh() && docId == old(docId)
      ensures forall a, b :: 0 <= a < b < |queries| ==> queries[a].Cost() <= queries[b].Cost()
      ensures Searchable(s.inverted.header, s.inverted.data, s.postings) ==> Valid()
      ensures SortedItems(s.inverted.header, s.inverted.data) && Count(s.inverted.header) <= MAX_SEARCHED ==>
        forall j :: 0 <= j < |queries| ==> queries[j].postings == Lookup(s.inverted.header, s.inverted.data, s.postings, queries[j].term)
    {
      queries := PrepareAll(queries, s);
      LookedUpReady(queries, s.inverted.header, s.inverted.data, s.postings);
    }

    /** `Cost`: the least sub-query cost, 0 without sub-queries. */
    method Cost() returns (r: U32)
      ensures |queries| == 0 ==> r == 0
      ensures forall j :: 0 <= j < |queries| ==> r <= queries[j].Cost()
      ensures |queries| > 0 ==> exists j :: 0 <= j < |queries| && r == queries[j].Cost()
    {
      if |queries| == 0 {
        return 0;
      }
      var min: U32 := TWO_32 - 1;
      for i := 0 to |queries|
        invariant forall j :: 0 <= j < i ==> min <= queries[j].Cost()
        invariant min == TWO_32 - 1 || exists j :: 0 <= j < i && min == queries[j].Cost()
      {
        var cost := queries[i].Cost();
        if min > cost {
          min := cost;
        }
      }
      if min == TWO_32 - 1 {
        assert min == queries[0].Cost();
      }
      return min;
    }

    /** `Score`: the sum of the sub-query scores, each in [1, 1024]. */
    method Score() returns (r: int)
      requires forall j :: 0 <= j < |queries| ==> 0 <= queries[j].cursor < Entries(queries[j].postings)
      ensures r == ScoreSum(queries, |queries|)
      ensures |queries| <= r <= 1024 * |queries|
    {
      r := 0;
      for i := 0 to |queries|
        invariant r == ScoreSum(queries, i)
        invariant i <= r <= 1024 * i
      {
        r := r + queries[i].Score();
      }
    }

    /**
     * `nextAndedDoc`: starting from sub-query 0 on `target0`, brings every
     * other sub-query to the target, restarting from sub-query 0 whenever
     * one overshoots. The result is the least document of the
     * intersection at or above lo, where nothing below `target0` from lo
     * on is in the intersection.
     */
    method NextAndedDoc(target0: int, ghost lo: int, ghost ps: seq<Bytes>) returns (r: int)
      requires Valid() && |queries| > 0 && Over(queries, ps)
      requires 0 <= lo <= target0 <= NO_MORE && queries[0].docId == target0
      requires NoneInAll(ps, lo, target0) && NoneSkipped(queries, ps, target0)
      modifies this, queries
      ensures queries == old(queries) && Valid() && Over(queries, ps) && r == docId
      ensures IsAndCeil(ps, lo, r)
      ensures r < NO_MORE ==> Settled()
    {
      var qs := queries;
      var target := AlignAll(qs, target0, lo, ps);
      Intersected(qs, ps, lo, target);
      docId := target;
      r := target;
    }

    /**
     * `Next`: the next document of the intersection, after the one the
     * last step returned (from the start after `Prepare`); `NO_MORE` when
     * there is none and always without sub-queries.
     */
    method Next() returns (r: int)
      requires Valid() && (Fresh() || Settled())
      modifies this, queries
      ensures queries == old(queries) && Valid() && r == docId
      ensures Over(queries, old(ListsOf(queries)))
      ensures |queries| == 0 ==> r == NO_MORE
      ensures |queries| > 0 ==> IsAndCeil(old(ListsOf(queries)), if old(Fresh()) then 0 else old(docId) + 1, r)
      ensures r < NO_MORE ==> Settled()
    {
      if |queries| == 0 {
        docId := NO_MORE;
        return NO_MORE;
      }
      ghost var ps := ListsOf(queries);
      ghost var lo := if Fresh() then 0 else docId + 1;
      var t := queries[0].Next();
      FirstListGap(ps, lo, t);
      r := NextAndedDoc(t, lo, ps);
    }

    /**
     * `advance(target)`, for a target beyond the current document: the
     * least document of the intersection at or above the target.
     */
    method Advance(target: I32) returns (r: int)
      requires Valid() && ((Fresh() && 0 <= target) || (Settled() && docId < target))
      modifies this, queries
      ensures queries == old(queries) && Valid() && r == docId
      ensures Over(queries, old(ListsOf(queries)))
      ensures |queries| == 0 ==> r == NO_MORE
      ensures |queries| > 0 ==> IsAndCeil(old(ListsOf(queries)), target, r)
      ensures r < NO_MORE ==> Settled()
    {
      if |queries| == 0 {
        docId := NO_MORE;
        return NO_MORE;
      }
      ghost var ps := ListsOf(queries);
      var t := queries[0].Advance(target);
      FirstListGap(ps, target, t);
      r := NextAndedDoc(t, target, ps);
    }
  }

  // ---------------------------------------------------------------------
  // Disjunction

  /** A sub-query of a union on document d: unstarted before the first step, else on its own ceiling of d. */
  predicate Rests(t: Term, d: int)
    reads t
  {
    || (d == NOT_READY && t.Unstarted())
    || (0 <= d < NO_MORE && t.Positioned() && IsCeil(t.postings, d, t.docId))
  }

  /** Every term rests on d. */
  predicate AllRest(qs: seq<Term>, d: int)
    reads qs
  {
    forall j :: 0 <= j < |qs| ==> Rests(qs[j], d)
  }

  /** Every term freshly prepared. */
  predicate AllUnstarted(qs: seq<Term>)
    reads qs
  {
    forall j :: 0 <= j < |qs| ==> qs[j].Unstarted()
  }

  /** One turn of the `BoolOrQuery.Next` loop: the sub-query is stepped when it rests on d itself. */
  method UnionStep(sub: Term, d: int) returns (cur: int)
    requires sub.Sane() && Ascending(sub.postings)
    modifies sub
    ensures cur == sub.docId && sub.postings == old(sub.postings) && sub.Sane()
    ensures old(Rests(sub, d)) ==> sub.Positioned() && IsCeil(sub.postings, d + 1, cur)
    ensures old(sub.docId) != d ==> sub.cursor == old(sub.cursor) && cur == old(sub.docId)
  {
    cur := sub.docId;
    if cur == d {
      cur := sub.Next();
    } else if old(Rests(sub, d)) {
      CeilRaise(sub.postings, d, d + 1, cur);
    }
  }

  /** The first |ds| terms were stepped past d and are now on ds (only `Unstarted` ones when none is on d). */
  predicate Stepped(qs: seq<Term>, ps: seq<Bytes>, d: int, ds: seq<int>, stepped: bool)
    reads qs
    requires |qs| == |ps|
  {
    && |ds| <= |qs|
    && forall j :: 0 <= j < |ds| ==>
         && qs[j].docId == ds[j]
         && (stepped ==> qs[j].Positioned() && IsCeil(ps[j], d + 1, ds[j]))
         && (!stepped ==> qs[j].Unstarted())
  }

  /** The terms from `from` on are still as the union left them on d. */
  predicate Waiting(qs: seq<Term>, d: int, from: nat, stepped: bool)
    reads qs
  {
    forall j :: from <= j < |qs| ==> if stepped then Rests(qs[j], d) else qs[j].Unstarted()
  }

  /** One turn of the `BoolOrQuery.Next` loop, on term i. */
  method UnionNextTurn(qs: seq<Term>, i: nat, d: int, ghost ps: seq<Bytes>, ghost ds: seq<int>, ghost stepped: bool) returns (cur: int)
    requires Distinct(qs) && AllSane(qs) && Over(qs, ps) && AllAscending(ps) && i == |ds| < |qs|
    requires !stepped ==> d == NO_MORE
    requires Waiting(qs, d, i, stepped) && Stepped(qs, ps, d, ds, stepped)
    modifies qs[i]
    ensures AllSane(qs) && Over(qs, ps)
    ensures Waiting(qs, d, i + 1, stepped) && Stepped(qs, ps, d, ds + [cur], stepped)
  {
    cur := UnionStep(qs[i], d);
  }

  /**
   * The loop of `BoolOrQuery.Next` over the sub-queries: the least
   * document they are on once those on d have been stepped.
   */
  method UnionNext(qs: seq<Term>, d: int, ghost ps: seq<Bytes>, ghost stepped: bool) returns (newDoc: int)
    requires Distinct(qs) && AllReady(qs) && Over(qs, ps)
    requires -1 <= d && (stepped ==> AllRest(qs, d))
    requires !stepped ==> d == NO_MORE && AllUnstarted(qs)
    modifies qs
    ensures AllReady(qs) && Over(qs, ps)
    ensures stepped ==> IsOrCeil(ps, d + 1, newDoc)
    ensures stepped && newDoc < NO_MORE ==> 0 <= newDoc && AllRest(qs, newDoc)
    ensures !stepped ==> AllUnstarted(qs) && (|qs| > 0 ==> newDoc == NOT_READY)
  {
    assert AllSane(qs) && AllAscending(ps);
    newDoc := NO_MORE;
    ghost var ds: seq<int> := [];
    for i := 0 to |qs|
      invariant AllSane(qs) && Over(qs, ps) && |ds| == i
      invariant Waiting(qs, d, i, stepped) && Stepped(qs, ps, d, ds, stepped)
      invariant newDoc == LeastOr(ds)
    {
      var cur := UnionNextTurn(qs, i, d, ps, ds, stepped);
      assert (ds + [cur])[..i] == ds;
      ds := ds + [cur];
      if cur < newDoc {
        newDoc := cur;
      }
    }
    SteppedAll(qs, ps, d, ds, stepped);
  }

  /** Once every term has been through the `BoolOrQuery.Next` loop, the least of their documents is the union's next one. */
  lemma SteppedAll(qs: seq<Term>, ps: seq<Bytes>, d: int, ds: seq<int>, stepped: bool)
    requires Over(qs, ps) && |ds| == |qs| && Stepped(qs, ps, d, ds, stepped) && -1 <= d
    ensures stepped ==> IsOrCeil(ps, d + 1, LeastOr(ds))
    ensures stepped && LeastOr(ds) < NO_MORE ==> 0 <= LeastOr(ds) && AllRest(qs, LeastOr(ds))
    ensures !stepped ==> AllUnstarted(qs) && (|qs| > 0 ==> LeastOr(ds) == NOT_READY)
  {
    LeastOrBounds(ds);
    if stepped {
      MinOfCeils(ps, d + 1, ds, LeastOr(ds));
    } else if |qs| > 0 {
      assert LeastOr(ds) <= ds[0];
    }
  }

  /** One turn of the `BoolOrQuery.advance` loop: the sub-query advances when it is behind the target. */
  method UnionAdvanceStep(sub: Term, d: int, target: I32) returns (cur: int)
    requires sub.Sane() && Ascending(sub.postings) && Rests(sub, d) && 0 <= target && d < target
    modifies sub
    ensures cur == sub.docId && sub.postings == old(sub.postings) && sub.Sane()
    ensures IsCeil(sub.postings, target, cur)
    ensures target < NO_MORE ==> sub.Positioned()
  {
    cur := sub.docId;
    if cur < target {
      cur := sub.Advance(target);
    } else {
      CeilRaise(sub.postings, d, target, cur);
    }
  }

  /** The first |ds| terms were advanced to the target and are now on ds. */
  predicate Advanced(qs: seq<Term>, ps: seq<Bytes>, target: int, ds: seq<int>)
    reads qs
    requires |qs| == |ps|
  {
    && |ds| <= |qs|
    && forall j :: 0 <= j < |ds| ==>
         && qs[j].docId == ds[j]
         && IsCeil(ps[j], target, ds[j])
         && (target < NO_MORE ==> qs[j].Positioned())
  }

  /** One turn of the `BoolOrQuery.advance` loop, on term i. */
  method UnionAdvanceTurn(qs: seq<Term>, i: nat, d: int, target: I32, ghost ps: seq<Bytes>, ghost ds: seq<int>) returns (cur: int)
    requires Distinct(qs) && AllSane(qs) && Over(qs, ps) && AllAscending(ps) && i == |ds| < |qs|
    requires 0 <= target && d < target
    requires Waiting(qs, d, i, true) && Advanced(qs, ps, target, ds)
    modifies qs[i]
    ensures AllSane(qs) && Over(qs, ps)
    ensures Waiting(qs, d, i + 1, true) && Advanced(qs, ps, target, ds + [cur])
  {
    cur := UnionAdvanceStep(qs[i], d, target);
  }

  /**
   * The loop of `BoolOrQuery.advance` over the sub-queries: those behind
   * the target advance to it; the least document they are then on.
   */
  method UnionAdvance(qs: seq<Term>, d: int, target: I32, ghost ps: seq<Bytes>) returns (newDoc: int)
    requires Distinct(qs) && AllReady(qs) && Over(qs, ps)
    requires 0 <= target && d < target && AllRest(qs, d)
    modifies qs
    ensures AllReady(qs) && Over(qs, ps)
    ensures IsOrCeil(ps, target, newDoc)
    ensures newDoc < NO_MORE ==> 0 <= newDoc && AllRest(qs, newDoc)
  {
    assert AllSane(qs) && AllAscending(ps);
    newDoc := NO_MORE;
    ghost var ds: seq<int> := [];
    for i := 0 to |qs|
      invariant AllSane(qs) && Over(qs, ps) && |ds| == i
      invariant Waiting(qs, d, i, true) && Advanced(qs, ps, target, ds)
      invariant newDoc == LeastOr(ds)
    {
      var cur := UnionAdvanceTurn(qs, i, d, target, ps, ds);
      assert (ds + [cur])[..i] == ds;
      ds := ds + [cur];
      if cur < newDoc {
        newDoc := cur;
      }
    }
    AdvancedAll(qs, ps, target, ds);
  }

  /** Once every term has been through the `BoolOrQuery.advance` loop, the least of their documents is the union's ceiling of the target. */
  lemma AdvancedAll(qs: seq<Term>, ps: seq<Bytes>, target: int, ds: seq<int>)
    requires Over(qs, ps) && |ds| == |qs| && Advanced(qs, ps, target, ds)
    ensures IsOrCeil(ps, target, LeastOr(ds))
    ensures target <= LeastOr(ds) < NO_MORE ==> AllRest(qs, LeastOr(ds))
  {
    LeastOrBounds(ds);
    MinOfCeils(ps, target, ds, LeastOr(ds));
  }

  class BoolOrQuery {
    var queries: seq<Term>
    var docId: int

    /** `NewBoolOrQuery`. */
    constructor (queries: seq<Term>)
      ensures this.queries == queries && docId == NOT_READY
    {
      this.queries := queries;
      docId := NOT_READY;
    }

    predicate Valid()
      reads this, queries
    {
      Distinct(queries) && AllReady(queries)
    }

    /** Not stepped yet, over freshly prepared sub-queries. */
    predicate Fresh()
      reads this, queries
    {
      docId == NOT_READY && AllUnstarted(queries)
    }

    /** On a document, with every sub-query on its own ceiling of that document. */
    predicate Synced()
      reads this, queries
    {
      0 <= docId < NO_MORE && AllRest(queries, docId)
    }

    /** Ran out on one segment, then its sub-queries were prepared on the next one. */
    predicate Reprepared()
      reads this, queries
    {
      docId == NO_MORE && AllUnstarted(queries)
    }

    /** `Prepare` (of `BoolQueryBase`): prepares the sub-queries and orders them by cost; `docId` is kept. */
    method Prepare(s: Segment)
      requires Distinct(queries) && Consistent(s.inverted.header, s.inverted.data, s.postings)
      modifies this, queries
      ensures |queries| == old(|queries|) && forall t :: t in queries <==> t in old(queries)
      ensures Distinct(queries) && docId == old(docId)
      ensures forall j :: 0 <= j < |queries| ==> queries[j].Unstarted()
      ensures forall a, b :: 0 <= a < b < |queries| ==> queries[a].Cost() <= queries[b].Cost()
      ensures Searchable(s.inverted.header, s.inverted.data, s.postings) ==> Valid()
      ensures SortedItems(s.inverted.header, s.inverted.data) && Count(s.inverted.header) <= MAX_SEARCHED ==>
        forall j :: 0 <= j < |queries| ==> queries[j].postings == Lookup(s.inverted.header, s.inverted.data, s.postings, queries[j].term)
    {
      queries := PrepareAll(queries, s);
      LookedUpReady(queries, s.inverted.header, s.inverted.data, s.postings);
    }

    /** `Cost`: the sum of the sub-query costs, wrapping as a uint32. */
    method Cost() returns (r: U32)
      ensures r == CostSum(queries, |queries|) % TWO_32
    {
      var sum: U32 := 0;
      for i := 0 to |queries|
        invariant sum == CostSum(queries, i) % TWO_32
      {
        assert CostSum(queries, i + 1) == CostSum(queries, i) + queries[i].Cost();
        AddWrap(CostSum(queries, i), queries[i].Cost());
        sum := (sum + queries[i].Cost()) % TWO_32;
      }
      return sum;
    }

    /** `Score`: the sum of the scores of the sub-queries on the current document. */
    method Score() returns (r: int)
      requires forall j :: 0 <= j < |queries| && queries[j].docId == docId ==> 0 <= queries[j].cursor < Entries(queries[j].postings)
      ensures r == MatchSum(queries, docId, |queries|)
      ensures 0 <= r <= 1024 * |queries|
      ensures (exists j :: 0 <= j < |queries| && queries[j].docId == docId) <==> r > 0
    {
      r := 0;
      for i := 0 to |queries|
        invariant r == MatchSum(queries, docId, i)
        invariant 0 <= r <= 1024 * i
        invariant (exists j :: 0 <= j < i && queries[j].docId == docId) <==> r > 0
      {
        if queries[i].docId == docId {
          r := r + queries[i].Score();
        }
      }
    }

    /**
     * `Next`: steps the sub-queries resting on the current document and
     * returns the least document any sub-query is on. From the start, or
     * on a document, that is the next document of the union. Run again
     * after running out and being prepared anew, no sub-query rests on
     * `NO_MORE`, so it returns `NOT_READY` and only the call after that
     * reads the first documents.
     */
    method Next() returns (r: int)
      requires Valid() && (Fresh() || Synced() || Reprepared())
      modifies this, queries
      ensures queries == old(queries) && Valid() && r == docId
      ensures Over(queries, old(ListsOf(queries)))
      ensures old(Fresh()) || old(Synced()) ==> IsOrCeil(old(ListsOf(queries)), old(docId) + 1, r)
      ensures old(Fresh()) || old(Synced()) ==> r == NO_MORE || Synced()
      ensures old(Reprepared()) && |queries| > 0 ==> r == NOT_READY && Fresh()
    {
      ghost var ps := ListsOf(queries);
      var qs := queries;
      r := UnionNext(qs, docId, ps, Fresh() || Synced());
      docId := r;
    }

    /**
     * `advance(target)`, for a target beyond the current document:
     * brings every sub-query behind the target up to it and returns the
     * least document of the union at or above the target.
     */
    method Advance(target: I32) returns (r: int)
      requires Valid() && ((Fresh() && 0 <= target) || (Synced() && docId < target))
      modifies this, queries
      ensures queries == old(queries) && Valid() && r == docId
      ensures Over(queries, old(ListsOf(queries)))
      ensures IsOrCeil(old(ListsOf(queries)), target, r)
      ensures r == NO_MORE || Synced()
    {
      ghost var ps := ListsOf(queries);
      var qs := queries;
      assert AllRest(qs, docId) && docId < target;
      r := UnionAdvance(qs, docId, target, ps);
      docId := r;
    }
  }
}
