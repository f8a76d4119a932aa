/**
  Per-file term weights (the body of `tokenizeAndAdd` in index/index.go,
  and the `adder` of the older index.go): a running map from term to
  weight is built from the file's content tokens, its directory
  components, the left-edge prefixes of its name and its extension; then
  every term gets one postings entry `id<<10 | min(weight, 1024)` in the
  segment and the map is emptied for the next file.
*/
module Weighting {
  import opened Bytes
  import opened Tokenizer
  import opened Postings
  import opened Segments

  const FILENAME_WEIGHT: int := 200
  const FILEPATH_WEIGHT: int := 1
  const SLASH: Byte := 0x2F
  const DOT: Byte := 0x2E

  // ---------------------------------------------------------------------
  // Paths (`filepath.Split`, `filepath.Ext`, `strings.Split`), over ASCII

  /** The position of the last c in s, -1 when there is none. */
  function LastIndex(s: Bytes, c: Byte): (r: int)
    ensures -1 <= r < |s|
    ensures r >= 0 ==> s[r] == c
    ensures forall k :: r < k < |s| ==> s[k] != c
  {
    if s == [] then -1
    else if s[|s| - 1] == c then |s| - 1
    else LastIndex(s[..|s| - 1], c)
  }

  /** The position of the first c in s, |s| when there is none. */
  function FirstIndex(s: Bytes, c: Byte): (r: nat)
    ensures r <= |s|
    ensures r < |s| ==> s[r] == c
    ensures forall k :: 0 <= k < r ==> s[k] != c
  {
    if s == [] || s[0] == c then 0 else 1 + FirstIndex(s[1..], c)
  }

  /**
   * `filepath.Split`: everything up to and including the last slash, and
   * the rest.
   */
  function SplitPath(path: Bytes): (r: (Bytes, Bytes))
    ensures r.0 + r.1 == path
    ensures SLASH !in r.1
    ensures r.0 == [] || r.0[|r.0| - 1] == SLASH
  {
    var k := LastIndex(path, SLASH);
    assert path[..k + 1] + path[k + 1..] == path;
    (path[..k + 1], path[k + 1..])
  }

  /**
   * `filepath.Ext` of a name without slashes: the suffix from the last
   * dot, or nothing when the name has no dot.
   */
  function Ext(name: Bytes): (r: Bytes)
    ensures |r| <= |name| && r == name[|name| - |r|..]
    ensures r == [] <==> DOT !in name
    ensures r != [] ==> r[0] == DOT && DOT !in r[1..]
  {
    var k := LastIndex(name, DOT);
    if k < 0 then [] else name[k..]
  }

  /** `strings.TrimSuffix(name, ext)` for the suffix `Ext` found. */
  function TrimExt(name: Bytes): (r: Bytes)
    ensures r + Ext(name) == name
  {
    var e := Ext(name);
    assert name[..|name| - |e|] + e == name;
    name[..|name| - |e|]
  }

  /** `strings.Split(s, "/")`: the pieces between the slashes, in order. */
  function SplitSlash(s: Bytes): (r: seq<Bytes>)
    ensures |r| >= 1
    ensures forall k :: 0 <= k < |r| ==> SLASH !in r[k]
    decreases |s|
  {
    var k := FirstIndex(s, SLASH);
    if k == |s| then [s] else [s[..k]] + SplitSlash(s[k + 1..])
  }

  /** `strings.Join(parts, "/")`. */
  function JoinSlash(parts: seq<Bytes>): Bytes
    requires |parts| >= 1
  {
    if |parts| == 1 then parts[0] else parts[0] + [SLASH] + JoinSlash(parts[1..])
  }

  /** Splitting at the slashes loses nothing: joining the pieces gives the text back. */
  lemma {:induction false} SplitJoin(s: Bytes)
    ensures JoinSlash(SplitSlash(s)) == s
    decreases |s|
  {
    var k := FirstIndex(s, SLASH);
    if k < |s| {
      SplitJoin(s[k + 1..]);
      JoinCons(s[..k], SplitSlash(s[k + 1..]));
      Rejoin(s, k);
    }
  }

  lemma JoinCons(x: Bytes, rest: seq<Bytes>)
    requires |rest| >= 1
    ensures JoinSlash([x] + rest) == x + [SLASH] + JoinSlash(rest)
  {
    assert ([x] + rest)[1..] == rest;
  }

  lemma Rejoin(s: Bytes, k: nat)
    requires k < |s| && s[k] == SLASH
    ensures s[..k] + [SLASH] + s[k + 1..] == s
  {
  }

  // ---------------------------------------------------------------------
  // What each step adds to a term's weight

  /** Go's `/` on a positive divisor: truncation toward zero. */
  function GoDiv(a: int, b: int): int
    requires b > 0
  {
    if a >= 0 then a / b else -((-a) / b)
  }

  /** A term's weight in the map, 0 when absent. */
  function Get(m: map<Bytes, int>, t: Bytes): int {
    if t in m then m[t] else 0
  }

  /** Content tokens longer than 2 bytes each add `1 + 10*boost` to their text. */
  function ContentGain(ts: seq<Token>, t: Bytes, n: nat): int
    requires n <= |ts|
  {
    if n == 0 then 0
    else ContentGain(ts, t, n - 1) + (if ts[n - 1].text == t && |t| > 2 then 1 + 10 * ts[n - 1].boost else 0)
  }

  ghost function ContentKeys(ts: seq<Token>, n: nat): set<Bytes>
    requires n <= |ts|
  {
    set k | 0 <= k < n && |ts[k].text| > 2 :: ts[k].text
  }

  /** Every non-empty piece adds `FILEPATH_WEIGHT` each time it occurs. */
  function PieceGain(parts: seq<Bytes>, t: Bytes, n: nat): int
    requires n <= |parts|
  {
    if n == 0 then 0
    else PieceGain(parts, t, n - 1) + (if parts[n - 1] == t && |t| > 0 then FILEPATH_WEIGHT else 0)
  }

  ghost function PieceKeys(parts: seq<Bytes>, n: nat): set<Bytes>
    requires n <= |parts|
  {
    set k | 0 <= k < n && |parts[k]| > 0 :: parts[k]
  }

  /**
   * The left-edge n-grams of a name: the prefix of length L, for
   * 3 <= L <= n, gets `max / (|text| - L + 1)`.
   */
  function EdgeGain(text: Bytes, max: int, t: Bytes, n: int): int {
    if 3 <= |t| <= n && |t| <= |text| && t == text[..|t|] then GoDiv(max, |text| - |t| + 1) else 0
  }

  ghost function EdgeKeys(text: Bytes, n: int): set<Bytes> {
    set L | 3 <= L <= n && L <= |text| :: text[..L]
  }

  /** The name's whole text gets the full weight; names of up to 2 bytes add nothing. */
  lemma EdgeWeights(text: Bytes, max: int)
    ensures |text| >= 3 ==> EdgeGain(text, max, text, |text|) == max
    ensures |text| <= 2 ==> EdgeKeys(text, |text|) == {} && forall t :: EdgeGain(text, max, t, |text|) == 0
  {
    assert text[..|text|] == text;
  }

  // ---------------------------------------------------------------------
  // The running map

  /** The `uniq` map of a worker and the `inc`/`edge` closures over it. */
  class Uniq {
    var counts: map<Bytes, int>

    constructor ()
      ensures counts == map[]
    {
      counts := map[];
    }

    /** `inc`: adds n to the text's weight, creating it; the empty text is ignored. */
    method Inc(text: Bytes, n: int)
      modifies this
      ensures |text| == 0 ==> counts == old(counts)
      ensures |text| > 0 ==> counts == old(counts)[text := Get(old(counts), text) + n]
      ensures counts.Keys == old(counts).Keys + (if |text| > 0 then {text} else {})
      ensures forall t :: Get(counts, t) == Get(old(counts), t) + (if t == text && |text| > 0 then n else 0)
    {
      if |text| > 0 {
        var m := n;
        if text in counts {
          m := m + counts[text];
        }
        counts := counts[text := m];
      }
    }

    /** `edge`: adds the weights of `EdgeGain` for every prefix of 3 or more bytes. */
    method Edge(text: Bytes, max: int)
      modifies this
      ensures counts.Keys == old(counts).Keys + EdgeKeys(text, |text|)
      ensures forall t :: Get(counts, t) == Get(old(counts), t) + EdgeGain(text, max, t, |text|)
    {
      var i := 2;
      while i < |text|
        invariant 2 <= i && (|text| >= 2 ==> i <= |text|)
        invariant counts.Keys == old(counts).Keys + EdgeKeys(text, i)
        invariant forall t :: Get(counts, t) == Get(old(counts), t) + EdgeGain(text, max, t, i)
      {
        EdgeStep(text, max, i);
        Inc(text[..i + 1], GoDiv(max, |text| - i));
        i := i + 1;
      }
      assert EdgeKeys(text, i) == EdgeKeys(text, |text|);
      assert forall t :: EdgeGain(text, max, t, i) == EdgeGain(text, max, t, |text|);
    }

    /** The content callback: every token longer than 2 bytes adds `1 + 10*boost`. */
    method AddContent(ts: seq<Token>)
      modifies this
      ensures counts.Keys == old(counts).Keys + ContentKeys(ts, |ts|)
      ensures forall t :: Get(counts, t) == Get(old(counts), t) + ContentGain(ts, t, |ts|)
    {
      for i := 0 to |ts|
        invariant counts.Keys == old(counts).Keys + ContentKeys(ts, i)
        invariant forall t :: Get(counts, t) == Get(old(counts), t) + ContentGain(ts, t, i)
      {
        assert ContentKeys(ts, i + 1) == ContentKeys(ts, i) + (if |ts[i].text| > 2 then {ts[i].text} else {});
        if |ts[i].text| > 2 {
          Inc(ts[i].text, 1 + ts[i].boost * 10);
        }
      }
    }

    /** The directory loop: every non-empty piece between slashes adds `FILEPATH_WEIGHT`. */
    method AddPieces(parts: seq<Bytes>)
      modifies this
      ensures counts.Keys == old(counts).Keys + PieceKeys(parts, |parts|)
      ensures forall t :: Get(counts, t) == Get(old(counts), t) + PieceGain(parts, t, |parts|)
    {
      for i := 0 to |parts|
        invariant counts.Keys == old(counts).Keys + PieceKeys(parts, i)
        invariant forall t :: Get(counts, t) == Get(old(counts), t) + PieceGain(parts, t, i)
      {
        assert PieceKeys(parts, i + 1) == PieceKeys(parts, i) + (if |parts[i]| > 0 then {parts[i]} else {});
        Inc(parts[i], FILEPATH_WEIGHT);
      }
    }
  }

  /** One more prefix: the keys grow by it and only its weight changes. */
  lemma EdgeStep(text: Bytes, max: int, i: nat)
    requires 2 <= i < |text|
    ensures EdgeKeys(text, i + 1) == EdgeKeys(text, i) + {text[..i + 1]}
    ensures EdgeGain(text, max, text[..i + 1], i) == 0
    ensures EdgeGain(text, max, text[..i + 1], i + 1) == GoDiv(max, |text| - i)
    ensures forall t :: t != text[..i + 1] ==> EdgeGain(text, max, t, i + 1) == EdgeGain(text, max, t, i)
  {
  }

  // ---------------------------------------------------------------------
  // A whole file

  /**
   * What one file contributes: its content tokens, the pieces of its
   * directory, its name without the extension and its extension.
   */
  datatype Parts = Parts(content: seq<Token>, dirs: seq<Bytes>, base: Bytes, ext: Bytes)

  /** The extension without its dot, which `inc(ext[1:], …)` adds. */
  function ExtText(ext: Bytes): Bytes {
    if |ext| == 0 then [] else ext[1..]
  }

  /** The terms a file gets. */
  ghost function Keys(p: Parts): set<Bytes> {
    ContentKeys(p.content, |p.content|) + PieceKeys(p.dirs, |p.dirs|) + EdgeKeys(p.base, |p.base|)
      + (if |ExtText(p.ext)| > 0 then {ExtText(p.ext)} else {})
  }

  /** The weight a file gives a term: the sum of what each step adds. */
  function Weight(p: Parts, t: Bytes): int {
    ContentGain(p.content, t, |p.content|) + PieceGain(p.dirs, t, |p.dirs|)
      + EdgeGain(p.base, FILENAME_WEIGHT, t, |p.base|)
      + (if t == ExtText(p.ext) && |t| > 0 then FILENAME_WEIGHT else 0)
  }

  /** The parts `tokenizeAndAdd` takes from a path and the tokens of its content. */
  function PartsOf(content: seq<Token>, path: Bytes): (r: Parts)
    ensures r.content == content
    ensures |r.dirs| >= 1 && JoinSlash(r.dirs) == SplitPath(path).0
    ensures r.base + r.ext == SplitPath(path).1
  {
    var sp := SplitPath(path);
    var dirs := SplitSlash(sp.0);
    var base := TrimExt(sp.1);
    var ext := Ext(sp.1);
    SplitJoin(sp.0);
    Parts(content, dirs, base, ext)
  }

  /**
   * The four steps of a file, in the order of the source: content tokens,
   * directory pieces, `edge` on the name, `inc` on the extension.
   */
  method Accumulate(u: Uniq, p: Parts)
    requires |p.ext| > 0
    modifies u
    ensures u.counts.Keys == old(u.counts).Keys + Keys(p)
    ensures forall t :: Get(u.counts, t) == Get(old(u.counts), t) + Weight(p, t)
  {
    u.AddContent(p.content);
    u.AddPieces(p.dirs);
    u.Edge(p.base, FILENAME_WEIGHT);
    u.Inc(p.ext[1..], FILENAME_WEIGHT);
  }

  /** The weights of one file, term by term. */
  ghost function FileWeights(p: Parts): map<Bytes, int> {
    map t | t in Keys(p) :: Weight(p, t)
  }

  /** A map with a file's terms and weights is that file's weight map. */
  lemma FileWeightsOf(before: map<Bytes, int>, counts: map<Bytes, int>, p: Parts)
    requires before == map[] && counts.Keys == before.Keys + Keys(p)
    requires forall t :: Get(counts, t) == Get(before, t) + Weight(p, t)
    ensures counts == FileWeights(p)
  {
    assert forall t :: t in counts ==> counts[t] == Get(counts, t);
  }

  /** Every weight is at least 0 when no token carries a negative boost. */
  lemma WeightNonNegative(p: Parts, t: Bytes)
    requires NoNegativeBoost(p)
    ensures Weight(p, t) >= 0
  {
    ContentGainNonNegative(p.content, t, |p.content|);
    PieceGainNonNegative(p.dirs, t, |p.dirs|);
  }

  lemma {:induction false} ContentGainNonNegative(ts: seq<Token>, t: Bytes, n: nat)
    requires n <= |ts| && forall k :: 0 <= k < |ts| ==> ts[k].boost >= 0
    ensures ContentGain(ts, t, n) >= 0
  {
    if n > 0 {
      ContentGainNonNegative(ts, t, n - 1);
    }
  }

  lemma {:induction false} PieceGainNonNegative(parts: seq<Bytes>, t: Bytes, n: nat)
    requires n <= |parts|
    ensures PieceGain(parts, t, n) >= 0
  {
    if n > 0 {
      PieceGainNonNegative(parts, t, n - 1);
    }
  }

  // ---------------------------------------------------------------------
  // Clamping and packing

  /** `if count > 1024 { count = 1024 }`. */
  function Clamp(count: int): (r: int)
    ensures r <= 1024 && (count <= 1024 ==> r == count)
  {
    if count > 1024 then 1024 else count
  }

  /**
   * The bit pattern of the int32 `id<<10 | int32(count)`: the shift keeps
   * the low 22 bits of id, and a count of 1024 sets bit 10, which is the
   * lowest bit of the id part.
   */
  function Pack(id: I32, count: int): (r: U32)
    requires 0 <= count <= 1024
  {
    var hi := id % 0x40_0000;
    if count < 1024 then 1024 * hi + count
    else if hi % 2 == 0 then 1024 * (hi + 1)
    else 1024 * hi
  }

  /** Below 1024, an entry gives back the id (when it fits in 22 bits) and the count. */
  lemma PackRoundTrip(id: I32, count: int)
    requires 0 <= id < 0x40_0000 && 0 <= count < 1024
    ensures Pack(id, count) / 1024 == id && Pack(id, count) % 1024 == count
  {
  }

  /** A clamped count of 1024 reads as weight 0 on the odd id `id|1`. */
  lemma PackClamped(id: I32)
    requires 0 <= id < 0x40_0000
    ensures Pack(id, 1024) % 1024 == 0
    ensures Pack(id, 1024) / 1024 == (if id % 2 == 0 then id + 1 else id)
  {
  }

  /** Entries packed from strictly increasing ids with counts below 1024 form an ascending list. */
  lemma PackedAscending(ids: seq<I32>, counts: seq<int>)
    requires |ids| == |counts|
    requires forall k :: 0 <= k < |ids| ==> 0 <= ids[k] < 0x40_0000 && 0 <= counts[k] < 1024
    requires forall j, k :: 0 <= j < k < |ids| ==> ids[j] < ids[k]
    ensures Ascending(Encode(seq(|ids|, k requires 0 <= k < |ids| => Pack(ids[k], counts[k]))))
  {
    var es := seq(|ids|, k requires 0 <= k < |ids| => Pack(ids[k], counts[k]));
    EncodeDecode(es);
    forall k | 0 <= k < |ids|
      ensures DocAt(Encode(es), k) == ids[k]
    {
      PackRoundTrip(ids[k], counts[k]);
    }
  }

  /**
   * File 100 with a term weighing 1024 or more and file 101 with the same
   * term: both entries read document 101, so the list is not ascending.
   */
  lemma ClampedEntryCollides()
    ensures !Ascending(Encode([Pack(100, 1024), Pack(101, 1)]))
  {
    var es: seq<U32> := [Pack(100, 1024), Pack(101, 1)];
    EncodeDecode(es);
    PackClamped(100);
    PackRoundTrip(101, 1);
    assert DocAt(Encode(es), 0) == DocAt(Encode(es), 1);
  }

  // ---------------------------------------------------------------------
  // Posting a file's terms

  /** A term's list, empty when absent. */
  function ListOf(m: map<Bytes, seq<U32>>, t: Bytes): seq<U32> {
    if t in m then m[t] else []
  }

  /** `after` is `before` with one entry appended to the list of each term of `add`. */
  ghost predicate Appended(before: map<Bytes, seq<U32>>, after: map<Bytes, seq<U32>>, add: map<Bytes, U32>) {
    && (forall t :: t in after <==> t in before || t in add)
    && (forall t :: t in add ==> after[t] == ListOf(before, t) + [add[t]])
    && (forall t :: t in before && t !in add ==> after[t] == before[t])
  }

  /** The entry each counted term gets for document id. */
  ghost function EntriesFor(id: I32, counts: map<Bytes, int>, terms: set<Bytes>): map<Bytes, U32>
    requires forall t :: t in counts ==> counts[t] >= 0
  {
    map t | t in terms && t in counts :: Pack(id, Clamp(counts[t]))
  }

  predicate NoNegativeBoost(p: Parts) {
    forall k :: 0 <= k < |p.content| ==> p.content[k].boost >= 0
  }

  lemma WeightsNonNegative(p: Parts)
    requires NoNegativeBoost(p)
    ensures forall t :: Weight(p, t) >= 0
  {
    forall t {
      WeightNonNegative(p, t);
    }
  }

  /** The entry each term of a file gets for document id. */
  ghost function FileEntries(id: I32, p: Parts): map<Bytes, U32>
    requires NoNegativeBoost(p)
  {
    WeightsNonNegative(p);
    EntriesFor(id, FileWeights(p), Keys(p))
  }

  /** The entries of a file whose content is scanned by `Tokenize`. */
  ghost function ContentEntries(id: I32, content: Bytes, path: Bytes): map<Bytes, U32> {
    var p := PartsOf(Toks(content, 0, 0), path);
    TokensShape(content);
    assert forall k :: 0 <= k < |p.content| ==> p.content[k] in p.content;
    FileEntries(id, p)
  }

  /** One more `addInverted` extends what has been appended by one term. */
  lemma AppendedStep(before: map<Bytes, seq<U32>>, mid: map<Bytes, seq<U32>>, add: map<Bytes, U32>, t: Bytes, e: U32)
    requires Appended(before, mid, add) && t !in add
    ensures Appended(before, mid[t := ListOf(mid, t) + [e]], add[t := e])
  {
  }

  lemma EntriesForStep(id: I32, counts: map<Bytes, int>, done: set<Bytes>, t: Bytes)
    requires forall t :: t in counts ==> counts[t] >= 0
    requires t in counts
    ensures EntriesFor(id, counts, done + {t}) == EntriesFor(id, counts, done)[t := Pack(id, Clamp(counts[t]))]
  {
  }

  /** The `range uniq` loop: one `addInverted` per term, in any order. */
  method Post(seg: Segment, id: I32, counts: map<Bytes, int>)
    requires forall t :: t in counts ==> counts[t] >= 0
    modifies seg
    ensures Appended(old(seg.inmemoryInverted), seg.inmemoryInverted, EntriesFor(id, counts, counts.Keys))
    ensures seg.inmemoryForward == old(seg.inmemoryForward) && seg.postings == old(seg.postings)
  {
    var rest := counts.Keys;
    ghost var done: set<Bytes> := {};
    while rest != {}
      invariant rest + done == counts.Keys && rest !! done
      invariant Appended(old(seg.inmemoryInverted), seg.inmemoryInverted, EntriesFor(id, counts, done))
      invariant seg.inmemoryForward == old(seg.inmemoryForward) && seg.postings == old(seg.postings)
      decreases |rest|
    {
      var t :| t in rest;
      AppendedStep(old(seg.inmemoryInverted), seg.inmemoryInverted, EntriesFor(id, counts, done), t, Pack(id, Clamp(counts[t])));
      EntriesForStep(id, counts, done, t);
      seg.AddInverted(t, Pack(id, Clamp(counts[t])));
      rest := rest - {t};
      done := done + {t};
    }
  }

  /** Weighing one file on an empty map: the map then holds exactly its weights. */
  method Weigh(u: Uniq, p: Parts) returns (counts: map<Bytes, int>)
    requires u.counts == map[] && |p.ext| > 0 && NoNegativeBoost(p)
    modifies u
    ensures counts == u.counts == FileWeights(p)
    ensures forall t :: t in counts ==> counts[t] >= 0
  {
    ghost var before := u.counts;
    Accumulate(u, p);
    counts := u.counts;
    FileWeightsOf(before, counts, p);
    WeightsNonNegative(p);
  }

  /**
   * The weighting and posting of one file, once its content is
   * tokenized: the path gets the next ordinal of the segment, every term
   * of the file gets one entry packed from that ordinal and its clamped
   * weight, and the map is emptied.
   */
  method AddFile(u: Uniq, seg: Segment, path: Bytes, p: Parts) returns (id: I32)
    requires u.counts == map[] && |p.ext| > 0 && NoNegativeBoost(p)
    modifies u, seg
    ensures u.counts == map[]
    ensures id == Int32Of(|old(seg.inmemoryForward)|)
    ensures seg.inmemoryForward == old(seg.inmemoryForward) + [path]
    ensures Appended(old(seg.inmemoryInverted), seg.inmemoryInverted, FileEntries(id, p))
    ensures seg.postings == old(seg.postings)
  {
    var counts := Weigh(u, p);
    id := seg.AddForward(path);
    Post(seg, id, counts);
    u.counts := map[];
  }

  /**
   * One file of `tokenizeAndAdd`, on an empty map, with the file's bytes
   * given (reading the file is left out). The walker only hands over
   * names with an extension.
   */
  method IndexFile(u: Uniq, seg: Segment, path: Bytes, content: Bytes) returns (id: I32)
    requires u.counts == map[] && DOT in SplitPath(path).1
    modifies u, seg
    ensures u.counts == map[]
    ensures id == Int32Of(|old(seg.inmemoryForward)|)
    ensures seg.inmemoryForward == old(seg.inmemoryForward) + [path]
    ensures Appended(old(seg.inmemoryInverted), seg.inmemoryInverted, ContentEntries(id, content, path))
    ensures seg.postings == old(seg.postings)
  {
    var tokens := Tokenize(content);
    TokensShape(content);
    assert forall k :: 0 <= k < |tokens| ==> tokens[k] in tokens;
    id := AddFile(u, seg, path, PartsOf(tokens, path));
  }
}
