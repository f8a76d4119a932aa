/**
 * The content tokenizer of the index builder (`Tokenize` and the `WEIRD`
 * keyword set in index/util.go).
 *
 * The source ranges over runes, but every rune it treats as part of a token
 * is ASCII, and every byte of a multi-byte (or invalid) UTF-8 sequence is
 * 0x80 or above, so scanning bytes one at a time splits the input the same
 * way: such a byte is a separator exactly like the rune it belongs to.
 */
module Tokenizer {
  import opened Bytes

  /** One callback invocation: the token text (original case) and its boost. */
  datatype Token = Token(text: Bytes, boost: int)

  predicate IsNewline(c: Byte) { c == 0x0A || c == 0x0D }

  /** The source's test, applied after upper-case letters were folded: [a-z_:0-9]. */
  predicate IsFoldedWord(c: Byte) {
    (0x61 <= c <= 0x7A) || c == 0x5F || c == 0x3A || (0x30 <= c <= 0x39)
  }

  /** Bytes that belong to a token: [A-Za-z0-9_:]. */
  predicate IsWord(c: Byte) {
    (0x41 <= c <= 0x5A) || (0x61 <= c <= 0x7A) || c == 0x5F || c == 0x3A || (0x30 <= c <= 0x39)
  }

  /** The keys of the `WEIRD` map, as bytes. */
  const Function: Bytes := [0x66, 0x75, 0x6E, 0x63, 0x74, 0x69, 0x6F, 0x6E]  // function
  const Func: Bytes := [0x66, 0x75, 0x6E, 0x63]  // func
  const Sub: Bytes := [0x73, 0x75, 0x62]  // sub
  const Class: Bytes := [0x63, 0x6C, 0x61, 0x73, 0x73]  // class

  /** Membership in `WEIRD`; matched case-sensitively. */
  predicate IsKeyword(t: Bytes) {
    t == Function || t == Func || t == Sub || t == Class
  }

  /**
   * The callback's arguments, in call order, when scanning resumes at `i`
   * with boost `w`; `start` is where the open run of word bytes began, and
   * equals `i` when no run is open. A newline resets the boost before the
   * run it ends is emitted; a keyword run is emitted with 0 and turns the
   * boost on; the run still open at the end of input is emitted with the
   * current boost and no keyword check.
   */
  function Scan(s: Bytes, i: nat, start: nat, w: int): seq<Token>
    requires start <= i <= |s|
    decreases |s| - i
  {
    if i == |s| then
      if start < i then [Token(s[start..i], w)] else []
    else if IsWord(s[i]) then Scan(s, i + 1, start, w)
    else
      var w1 := if IsNewline(s[i]) then 0 else w;
      if start == i then Scan(s, i + 1, i + 1, w1)
      else if IsKeyword(s[start..i]) then [Token(s[start..i], 0)] + Scan(s, i + 1, i + 1, 1)
      else [Token(s[start..i], w1)] + Scan(s, i + 1, i + 1, w1)
  }

  /** Scanning from `i` with no run open. */
  function Toks(s: Bytes, i: nat, w: int): seq<Token>
    requires i <= |s|
  {
    Scan(s, i, i, w)
  }

  /** `Tokenize(input, cb)`: the callback's arguments, in call order. */
  method Tokenize(input: Bytes) returns (out: seq<Token>)
    ensures out == Toks(input, 0, 0)
  {
    var weird := 0;
    var start, end := -1, -1;
    out := [];
    var i := 0;
    while i < |input|
      invariant 0 <= i <= |input|
      invariant start == -1 <==> end == -1
      invariant start != -1 ==> 0 <= start < i == end
      invariant out + Scan(input, i, if start == -1 then i else start, weird) == Toks(input, 0, 0)
    {
      ghost var st := if start == -1 then i else start;
      ghost var w0 := weird;
      ghost var before := Scan(input, i, st, weird);
      var c := input[i];
      FoldedWord(c);
      if IsNewline(c) {
        weird := 0;
      }
      if IsUpper(c) {
        c := c + 0x20;
      }
      if IsFoldedWord(c) {
        if start == -1 {
          start := i;
          end := start;
        }
        end := end + 1;
        ScanWordStep(input, i, st, weird);
      } else {
        if end - start > 0 {
          var s := input[start..end];
          if IsKeyword(s) {
            weird := 1;
            out := out + [Token(s, 0)];
          } else {
            out := out + [Token(s, weird)];
          }
        }
        ScanSeparatorStep(input, i, st, before, w0);
        start, end := -1, -1;
      }
      i := i + 1;
    }
    if end - start > 0 {
      out := out + [Token(input[start..end], weird)];
    }
  }

  /** Folding upper-case letters first, the source's test accepts exactly the word bytes. */
  lemma FoldedWord(c: Byte)
    ensures IsUpper(c) ==> c + 0x20 < 0x100 && (IsFoldedWord(c + 0x20) <==> IsWord(c))
    ensures !IsUpper(c) ==> (IsFoldedWord(c) <==> IsWord(c))
  {
  }

  lemma ScanWordStep(s: Bytes, i: nat, start: nat, w: int)
    requires start <= i < |s| && IsWord(s[i])
    ensures Scan(s, i, start, w) == Scan(s, i + 1, start, w)
  {
  }

  /** A separator byte: the open run, if any, is emitted, and the boost is updated. */
  lemma ScanSeparatorStep(s: Bytes, i: nat, start: nat, before: seq<Token>, w0: int)
    requires start <= i < |s| && !IsWord(s[i])
    requires before == Scan(s, i, start, w0)
    ensures var w1 := if IsNewline(s[i]) then 0 else w0;
      if start == i then before == Scan(s, i + 1, i + 1, w1)
      else if IsKeyword(s[start..i]) then before == [Token(s[start..i], 0)] + Scan(s, i + 1, i + 1, 1)
      else before == [Token(s[start..i], w1)] + Scan(s, i + 1, i + 1, w1)
  {
  }

  // ---------------------------------------------------------------------
  // Properties

  predicate AllWord(t: Bytes) {
    forall k :: 0 <= k < |t| ==> IsWord(t[k])
  }

  /** Every token is a non-empty run of word bytes, and every boost is 0 or 1. */
  lemma {:induction false} ScanShape(s: Bytes, i: nat, start: nat, w: int)
    requires start <= i <= |s|
    requires AllWord(s[start..i])
    requires w == 0 || w == 1
    ensures forall t :: t in Scan(s, i, start, w) ==>
      |t.text| > 0 && AllWord(t.text) && (t.boost == 0 || t.boost == 1)
    decreases |s| - i
  {
    if i < |s| {
      var w1 := if IsNewline(s[i]) then 0 else w;
      if IsWord(s[i]) {
        assert s[start..i + 1] == s[start..i] + [s[i]];
        ScanShape(s, i + 1, start, w);
      } else if start == i {
        ScanShape(s, i + 1, i + 1, w1);
      } else if IsKeyword(s[start..i]) {
        ScanShape(s, i + 1, i + 1, 1);
      } else {
        ScanShape(s, i + 1, i + 1, w1);
      }
    }
  }

  lemma TokensShape(s: Bytes)
    ensures forall t :: t in Toks(s, 0, 0) ==>
      |t.text| > 0 && AllWord(t.text) && (t.boost == 0 || t.boost == 1)
  {
    ScanShape(s, 0, 0, 0);
  }

  /**
   * A keyword run is emitted with boost 0 unless it is the run left open at
   * the end of input.
   */
  lemma {:induction false} KeywordsUnboosted(s: Bytes, i: nat, start: nat, w: int)
    requires start <= i <= |s|
    ensures forall j :: 0 <= j < |Scan(s, i, start, w)| - 1 && IsKeyword(Scan(s, i, start, w)[j].text) ==>
      Scan(s, i, start, w)[j].boost == 0
    decreases |s| - i
  {
    if i < |s| {
      var w1 := if IsNewline(s[i]) then 0 else w;
      if IsWord(s[i]) {
        KeywordsUnboosted(s, i + 1, start, w);
      } else if start == i {
        KeywordsUnboosted(s, i + 1, i + 1, w1);
      } else if IsKeyword(s[start..i]) {
        KeywordsUnboosted(s, i + 1, i + 1, 1);
      } else {
        KeywordsUnboosted(s, i + 1, i + 1, w1);
      }
    }
  }

  // ---------------------------------------------------------------------
  // Which runs are boosted, stated over positions in the input

  /** Where the run of word bytes ending at e begins (e itself when s[e-1] is not a word byte). */
  function RunStart(s: Bytes, e: nat): (r: nat)
    requires e <= |s|
    ensures r <= e && AllWord(s[r..e]) && (r == 0 || !IsWord(s[r - 1]))
    decreases e
  {
    if e > 0 && IsWord(s[e - 1]) then
      var r := RunStart(s, e - 1);
      assert s[r..e] == s[r..e - 1] + [s[e - 1]];
      r
    else e
  }

  /** The byte at e is a separator that closes a keyword run. */
  predicate KeywordEnd(s: Bytes, e: nat) {
    e < |s| && !IsWord(s[e]) && RunStart(s, e) < e && IsKeyword(s[RunStart(s, e)..e])
  }

  /** No newline byte in [lo, hi). */
  predicate NoNewline(s: Bytes, lo: nat, hi: nat) {
    forall k :: lo <= k < hi && k < |s| ==> !IsNewline(s[k])
  }

  /**
   * A run ending at e is boosted: a keyword run was closed by a separator
   * before e, and no newline byte lies after that separator up to and
   * including the byte at e.
   */
  ghost predicate Boosted(s: Bytes, e: nat) {
    exists k :: 0 <= k < e && KeywordEnd(s, k) && NoNewline(s, k + 1, e + 1)
  }

  /** The same, for scanning resumed at i with boost w. */
  ghost predicate BoostedFrom(s: Bytes, i: nat, w: int, e: nat) {
    || (w == 1 && NoNewline(s, i, e + 1))
    || exists k :: i <= k < e && KeywordEnd(s, k) && NoNewline(s, k + 1, e + 1)
  }

  /**
   * Where each token of `Scan(s, i, start, w)` ends: the separator that
   * closes its run, or the end of input for the run left open there.
   */
  function RunEnds(s: Bytes, i: nat, start: nat): seq<nat>
    requires start <= i <= |s|
    decreases |s| - i
  {
    if i == |s| then
      if start < i then [|s|] else []
    else if IsWord(s[i]) then RunEnds(s, i + 1, start)
    else if start == i then RunEnds(s, i + 1, i + 1)
    else [i] + RunEnds(s, i + 1, i + 1)
  }

  /** Stepping over byte i updates the boost as the scan does. */
  lemma BoostedStep(s: Bytes, i: nat, w: int, w': int, e: nat)
    requires i < e && i < |s|
    requires w' == if KeywordEnd(s, i) then 1 else if IsNewline(s[i]) then 0 else w
    ensures BoostedFrom(s, i, w, e) <==> BoostedFrom(s, i + 1, w', e)
  {
    if BoostedFrom(s, i + 1, w', e) {
      if KeywordEnd(s, i) && w' == 1 && NoNewline(s, i + 1, e + 1) {
        assert i <= i < e && KeywordEnd(s, i) && NoNewline(s, i + 1, e + 1);
      } else if !(w' == 1 && NoNewline(s, i + 1, e + 1)) {
        var k :| i + 1 <= k < e && KeywordEnd(s, k) && NoNewline(s, k + 1, e + 1);
        assert i <= k < e;
      }
    }
    if BoostedFrom(s, i, w, e) && !(w == 1 && NoNewline(s, i, e + 1)) {
      var k :| i <= k < e && KeywordEnd(s, k) && NoNewline(s, k + 1, e + 1);
      if k > i {
        assert i + 1 <= k < e;
      }
    }
  }

  /**
   * Token t is the run ending at e; a keyword run closed by a separator has
   * boost 0, and any other run has boost 1 exactly when `BoostedFrom` holds
   * for scanning resumed at i with boost w.
   */
  ghost predicate TokenAgrees(s: Bytes, i: nat, w: int, e: nat, t: Token) {
    && i <= e <= |s| && t.text == s[RunStart(s, e)..e]
    && (e < |s| && IsKeyword(t.text) ==> t.boost == 0)
    && (!(e < |s| && IsKeyword(t.text)) ==> (t.boost == 1 <==> BoostedFrom(s, i, w, e)))
  }

  /** Every token of toks agrees with where its run ends, the end listed at the same place in ends. */
  ghost predicate Agree(s: Bytes, i: nat, w: int, ends: seq<nat>, toks: seq<Token>) {
    |ends| == |toks| && forall j :: 0 <= j < |ends| ==> TokenAgrees(s, i, w, ends[j], toks[j])
  }

  /** Every token of `Scan(s, i, start, w)` agrees with where its run ends. */
  ghost predicate BoostsAgree(s: Bytes, i: nat, start: nat, w: int)
    requires start <= i <= |s|
  {
    Agree(s, i, w, RunEnds(s, i, start), Scan(s, i, start, w))
  }

  /** Where the open run begins once byte i is scanned. */
  function NextStart(s: Bytes, i: nat, start: nat): nat
    requires i < |s|
  {
    if IsWord(s[i]) then start else i + 1
  }

  /** The boost once byte i is scanned. */
  function NextBoost(s: Bytes, i: nat, w: int): int
    requires i < |s|
  {
    if KeywordEnd(s, i) then 1 else if IsNewline(s[i]) then 0 else w
  }

  /** A token ending after byte i agrees from i once it agrees from i + 1. */
  lemma TokenAgreesStep(s: Bytes, i: nat, w: int, e: nat, t: Token)
    requires i < |s| && TokenAgrees(s, i + 1, NextBoost(s, i, w), e, t)
    ensures TokenAgrees(s, i, w, e, t)
  {
    BoostedStep(s, i, w, NextBoost(s, i, w), e);
  }

  /** Tokens that agree from i + 1 agree from i. */
  lemma AgreeTail(s: Bytes, i: nat, w: int, ends: seq<nat>, toks: seq<Token>)
    requires i < |s| && Agree(s, i + 1, NextBoost(s, i, w), ends, toks)
    ensures Agree(s, i, w, ends, toks)
  {
    forall j | 0 <= j < |ends|
      ensures TokenAgrees(s, i, w, ends[j], toks[j])
    {
      TokenAgreesStep(s, i, w, ends[j], toks[j]);
    }
  }

  /** A first token that agrees from i, followed by tokens that agree from i + 1. */
  lemma AgreeCons(s: Bytes, i: nat, w: int, e0: nat, t0: Token, ends: seq<nat>, toks: seq<Token>)
    requires i < |s| && TokenAgrees(s, i, w, e0, t0) && Agree(s, i + 1, NextBoost(s, i, w), ends, toks)
    ensures Agree(s, i, w, [e0] + ends, [t0] + toks)
  {
    var ends0, toks0 := [e0] + ends, [t0] + toks;
    forall j | 0 <= j < |ends0|
      ensures TokenAgrees(s, i, w, ends0[j], toks0[j])
    {
      if j > 0 {
        var e, t := ends[j - 1], toks[j - 1];
        assert ends0[j] == e && toks0[j] == t;
        TokenAgreesStep(s, i, w, e, t);
      }
    }
  }

  /** Byte i extends the open run, or is a separator with no run open: no token is emitted. */
  lemma ScanStepSkip(s: Bytes, i: nat, start: nat, w: int)
    requires start <= i < |s| && RunStart(s, i) == start && (IsWord(s[i]) || start == i)
    ensures RunEnds(s, i, start) == RunEnds(s, i + 1, NextStart(s, i, start))
    ensures Scan(s, i, start, w) == Scan(s, i + 1, NextStart(s, i, start), NextBoost(s, i, w))
  {
  }

  /** Byte i is a separator closing the open run: that run is emitted and ends at i. */
  lemma ScanStepClose(s: Bytes, i: nat, start: nat, w: int)
    requires start < i < |s| && !IsWord(s[i]) && RunStart(s, i) == start
    ensures RunEnds(s, i, start) == [i] + RunEnds(s, i + 1, i + 1)
    ensures Scan(s, i, start, w) ==
      [Token(s[start..i], if IsKeyword(s[start..i]) then 0 else if IsNewline(s[i]) then 0 else w)]
      + Scan(s, i + 1, i + 1, NextBoost(s, i, w))
  {
  }

  /** The run closed at i agrees with its end. */
  lemma ClosedAgrees(s: Bytes, i: nat, start: nat, w: int)
    requires start < i < |s| && !IsWord(s[i]) && RunStart(s, i) == start
    ensures TokenAgrees(s, i, w, i, Token(s[start..i], if IsKeyword(s[start..i]) then 0 else if IsNewline(s[i]) then 0 else w))
  {
    assert !BoostedFrom(s, i, w, i) || (w == 1 && !IsNewline(s[i]));
  }

  /** At the end of input, the run still open is the one token. */
  lemma BoostsAgreeEnd(s: Bytes, start: nat, w: int)
    requires start <= |s| && RunStart(s, |s|) == start
    ensures BoostsAgree(s, |s|, start, w)
  {
    if start < |s| {
      assert TokenAgrees(s, |s|, w, |s|, Token(s[start..|s|], w));
    }
  }

  /** The scan over byte i, in all three cases. */
  lemma BoostsAgreeStep(s: Bytes, i: nat, start: nat, w: int)
    requires start <= i < |s| && RunStart(s, i) == start
    requires BoostsAgree(s, i + 1, NextStart(s, i, start), NextBoost(s, i, w))
    ensures BoostsAgree(s, i, start, w)
  {
    if IsWord(s[i]) || start == i {
      ScanStepSkip(s, i, start, w);
      AgreeTail(s, i, w, RunEnds(s, i + 1, NextStart(s, i, start)), Scan(s, i + 1, NextStart(s, i, start), NextBoost(s, i, w)));
    } else {
      ScanStepClose(s, i, start, w);
      ClosedAgrees(s, i, start, w);
      AgreeCons(s, i, w, i, Token(s[start..i], if IsKeyword(s[start..i]) then 0 else if IsNewline(s[i]) then 0 else w),
        RunEnds(s, i + 1, i + 1), Scan(s, i + 1, i + 1, NextBoost(s, i, w)));
    }
  }

  /** Every token from scan state (i, start, w) agrees with where its run ends. */
  lemma {:induction false} ScanBoosts(s: Bytes, i: nat, start: nat, w: int)
    requires start <= i <= |s| && RunStart(s, i) == start
    ensures BoostsAgree(s, i, start, w)
    decreases |s| - i
  {
    if i == |s| {
      BoostsAgreeEnd(s, start, w);
    } else {
      assert RunStart(s, i + 1) == NextStart(s, i, start);
      ScanBoosts(s, i + 1, NextStart(s, i, start), NextBoost(s, i, w));
      BoostsAgreeStep(s, i, start, w);
    }
  }

  /**
   * The boost of every token: token j is the run ending at
   * `RunEnds(s, 0, 0)[j]`; a keyword run closed by a separator gets 0, and
   * any other run gets 1 exactly when a keyword run was closed before it
   * with no newline byte after that keyword's closing byte up to and
   * including the byte that ends it (so a newline resets the boost before
   * the run it ends is emitted), and 0 otherwise.
   */
  lemma BoostsFollowKeywords(s: Bytes)
    ensures |RunEnds(s, 0, 0)| == |Toks(s, 0, 0)|
    ensures forall j :: 0 <= j < |RunEnds(s, 0, 0)| ==>
      var e := RunEnds(s, 0, 0)[j];
      var t := Toks(s, 0, 0)[j];
      && e <= |s| && t.text == s[RunStart(s, e)..e]
      && (e < |s| && IsKeyword(t.text) ==> t.boost == 0)
      && (!(e < |s| && IsKeyword(t.text)) ==> t.boost == (if Boosted(s, e) then 1 else 0))
  {
    ScanBoosts(s, 0, 0, 0);
    ScanShape(s, 0, 0, 0);
    var ends, toks := RunEnds(s, 0, 0), Toks(s, 0, 0);
    forall j | 0 <= j < |ends|
      ensures TokenAgrees(s, 0, 0, ends[j], toks[j]) && (toks[j].boost == 0 || toks[j].boost == 1)
    {
      assert toks[j] in toks;
    }
  }

  /** Without a keyword run (before the final one), nothing is ever boosted. */
  lemma {:induction false} NoKeywordNoBoost(s: Bytes, i: nat, start: nat)
    requires start <= i <= |s|
    requires forall j :: 0 <= j < |Scan(s, i, start, 0)| - 1 ==> !IsKeyword(Scan(s, i, start, 0)[j].text)
    ensures forall j :: 0 <= j < |Scan(s, i, start, 0)| ==> Scan(s, i, start, 0)[j].boost == 0
    decreases |s| - i
  {
    if i < |s| {
      if IsWord(s[i]) {
        assert Scan(s, i, start, 0) == Scan(s, i + 1, start, 0);
        NoKeywordNoBoost(s, i + 1, start);
      } else if start == i {
        assert Scan(s, i, i, 0) == Scan(s, i + 1, i + 1, 0);
        NoKeywordNoBoost(s, i + 1, i + 1);
      } else {
        var tok := s[start..i];
        if IsKeyword(tok) {
          assert Scan(s, i, start, 0) == [Token(tok, 0)] + Scan(s, i + 1, i + 1, 1);
          assert IsKeyword(Scan(s, i, start, 0)[0].text);
          if |Scan(s, i + 1, i + 1, 1)| > 0 {
            assert false;
          }
        } else {
          var rest := Scan(s, i + 1, i + 1, 0);
          assert Scan(s, i, start, 0) == [Token(tok, 0)] + rest;
          forall j | 0 <= j < |rest| - 1
            ensures !IsKeyword(rest[j].text)
          {
            assert rest[j] == Scan(s, i, start, 0)[j + 1];
          }
          NoKeywordNoBoost(s, i + 1, i + 1);
        }
      }
    }
  }

  // ---------------------------------------------------------------------
  // The tokens are exactly the maximal word runs, in input order

  predicate AllSeparators(g: Bytes) {
    forall k :: 0 <= k < |g| ==> !IsWord(g[k])
  }

  /**
   * The separator stretches of `s` from `i` on: one before each maximal run
   * and one after the last. Inside a run (`inRun`), the next stretch starts
   * at the byte that ends it; otherwise the current stretch began at `gs`.
   */
  function Gaps(s: Bytes, i: nat, gs: nat, inRun: bool): (g: seq<Bytes>)
    requires gs <= i <= |s|
    ensures |g| >= 1
    decreases |s| - i
  {
    if i == |s| then
      if inRun then [[]] else [s[gs..]]
    else if IsWord(s[i]) then
      if inRun then Gaps(s, i + 1, gs, true) else [s[gs..i]] + Gaps(s, i + 1, i + 1, true)
    else
      if inRun then Gaps(s, i + 1, i, false) else Gaps(s, i + 1, gs, false)
  }

  /**
   * No stretch holds a word byte, and all but the outer two are non-empty;
   * a stretch that has begun before `i` is non-empty.
   */
  lemma {:induction false} GapsAreSeparators(s: Bytes, i: nat, gs: nat, inRun: bool)
    requires gs <= i <= |s|
    requires !inRun ==> AllSeparators(s[gs..i])
    ensures forall k :: 0 <= k < |Gaps(s, i, gs, inRun)| ==> AllSeparators(Gaps(s, i, gs, inRun)[k])
    ensures forall k :: (if inRun then 0 else 1) <= k < |Gaps(s, i, gs, inRun)| - 1 ==>
      |Gaps(s, i, gs, inRun)[k]| > 0
    ensures !inRun && gs < i ==> |Gaps(s, i, gs, inRun)[0]| > 0
    decreases |s| - i
  {
    if i < |s| {
      if IsWord(s[i]) {
        if inRun {
          GapsAreSeparators(s, i + 1, gs, true);
        } else {
          GapsAreSeparators(s, i + 1, i + 1, true);
          var g := Gaps(s, i + 1, i + 1, true);
          assert Gaps(s, i, gs, false) == [s[gs..i]] + g;
          forall k | 1 <= k < |g| + 1
            ensures Gaps(s, i, gs, false)[k] == g[k - 1]
          {
          }
        }
      } else if inRun {
        assert s[i..i + 1] == [s[i]];
        GapsAreSeparators(s, i + 1, i, false);
      } else {
        assert s[gs..i + 1] == s[gs..i] + [s[i]];
        GapsAreSeparators(s, i + 1, gs, false);
      }
    } else if !inRun {
      assert s[gs..] == s[gs..i];
    }
  }

  /** Separators and runs interleaved: g0 t0 g1 t1 ... gn. */
  function Weave(g: seq<Bytes>, t: seq<Bytes>): Bytes
  {
    if g == [] then []
    else if t == [] then g[0]
    else g[0] + t[0] + Weave(g[1..], t[1..])
  }

  function Texts(ts: seq<Token>): (r: seq<Bytes>)
    ensures |r| == |ts|
    ensures forall k :: 0 <= k < |ts| ==> r[k] == ts[k].text
  {
    seq(|ts|, k requires 0 <= k < |ts| => ts[k].text)
  }

  lemma WeaveCons(a: Bytes, t: Bytes, g: seq<Bytes>, ts: seq<Bytes>)
    ensures Weave([a] + g, [t] + ts) == a + t + Weave(g, ts)
  {
    assert ([a] + g)[1..] == g && ([t] + ts)[1..] == ts;
  }

  /**
   * Reassembling the separator stretches and the token texts gives back the
   * input. Outside a run, the stretches and texts interleave from `gs`;
   * inside one, the open run comes first and the stretches interleave with
   * the texts after it.
   */
  predicate Reassembles(s: Bytes, i: nat, start: nat, gs: nat, w: int)
    requires start <= i <= |s| && gs <= i
  {
    var t := Texts(Scan(s, i, start, w));
    if start == i then
      var g := Gaps(s, i, gs, false);
      |g| == |t| + 1 && s[gs..] == Weave(g, t)
    else
      var g := Gaps(s, i, gs, true);
      |g| == |t| && |t| > 0 && s[start..] == t[0] + Weave(g, t[1..])
  }

  lemma {:induction false} TokensReassemble(s: Bytes, i: nat, start: nat, gs: nat, w: int)
    requires start <= i <= |s| && gs <= i
    ensures Reassembles(s, i, start, gs, w)
    decreases |s| - i
  {
    if i == |s| {
      ReassembleEnd(s, start, gs, w);
    } else if IsWord(s[i]) {
      if start == i {
        TokensReassemble(s, i + 1, i, i + 1, w);
        ReassembleRunStart(s, i, gs, w);
      } else {
        TokensReassemble(s, i + 1, start, gs, w);
        ReassembleRunByte(s, i, start, gs, w);
      }
    } else {
      var w1 := if IsNewline(s[i]) then 0 else w;
      if start == i {
        TokensReassemble(s, i + 1, i + 1, gs, w1);
        ReassembleSeparator(s, i, gs, w);
      } else {
        var w2 := if IsKeyword(s[start..i]) then 1 else w1;
        TokensReassemble(s, i + 1, i + 1, i, w2);
        ReassembleRunEnd(s, i, start, gs, w, w2);
      }
    }
  }

  lemma ReassembleEnd(s: Bytes, start: nat, gs: nat, w: int)
    requires start <= |s| && gs <= |s|
    ensures Reassembles(s, |s|, start, gs, w)
  {
    if start < |s| {
      assert s[start..|s|] == s[start..];
      assert Scan(s, |s|, start, w) == [Token(s[start..], w)];
      assert Texts(Scan(s, |s|, start, w)) == [s[start..]];
    }
  }

  lemma ReassembleRunStart(s: Bytes, i: nat, gs: nat, w: int)
    requires gs <= i < |s| && IsWord(s[i])
    requires Reassembles(s, i + 1, i, i + 1, w)
    ensures Reassembles(s, i, i, gs, w)
  {
    var t := Texts(Scan(s, i, i, w));
    assert Scan(s, i, i, w) == Scan(s, i + 1, i, w);
    var g := Gaps(s, i + 1, i + 1, true);
    assert Gaps(s, i, gs, false) == [s[gs..i]] + g;
    WeaveCons(s[gs..i], t[0], g, t[1..]);
    assert t == [t[0]] + t[1..];
    assert s[gs..] == s[gs..i] + s[i..];
  }

  lemma ReassembleRunByte(s: Bytes, i: nat, start: nat, gs: nat, w: int)
    requires start < i < |s| && gs <= i && IsWord(s[i])
    requires Reassembles(s, i + 1, start, gs, w)
    ensures Reassembles(s, i, start, gs, w)
  {
    assert Scan(s, i, start, w) == Scan(s, i + 1, start, w);
    assert Gaps(s, i, gs, true) == Gaps(s, i + 1, gs, true);
  }

  lemma ReassembleSeparator(s: Bytes, i: nat, gs: nat, w: int)
    requires gs <= i < |s| && !IsWord(s[i])
    requires Reassembles(s, i + 1, i + 1, gs, if IsNewline(s[i]) then 0 else w)
    ensures Reassembles(s, i, i, gs, w)
  {
    assert Scan(s, i, i, w) == Scan(s, i + 1, i + 1, if IsNewline(s[i]) then 0 else w);
    assert Gaps(s, i, gs, false) == Gaps(s, i + 1, gs, false);
  }

  lemma ReassembleRunEnd(s: Bytes, i: nat, start: nat, gs: nat, w: int, w2: int)
    requires start < i < |s| && gs <= i && !IsWord(s[i])
    requires w2 == if IsKeyword(s[start..i]) then 1 else if IsNewline(s[i]) then 0 else w
    requires Reassembles(s, i + 1, i + 1, i, w2)
    ensures Reassembles(s, i, start, gs, w)
  {
    var rest := Scan(s, i + 1, i + 1, w2);
    var b := if IsKeyword(s[start..i]) then 0 else if IsNewline(s[i]) then 0 else w;
    assert Scan(s, i, start, w) == [Token(s[start..i], b)] + rest;
    assert Texts(Scan(s, i, start, w))[1..] == Texts(rest);
    assert Gaps(s, i, gs, true) == Gaps(s, i + 1, i, false);
    assert s[start..] == s[start..i] + s[i..];
  }

  /**
   * The whole input is the first stretch, the first token, the second
   * stretch, and so on; with `GapsAreSeparators` and `TokensShape` this
   * says the tokens are exactly the maximal word runs, in input order.
   */
  lemma TokensAreMaximalRuns(s: Bytes)
    ensures |Gaps(s, 0, 0, false)| == |Toks(s, 0, 0)| + 1
    ensures s == Weave(Gaps(s, 0, 0, false), Texts(Toks(s, 0, 0)))
    ensures forall k :: 0 <= k < |Gaps(s, 0, 0, false)| ==> AllSeparators(Gaps(s, 0, 0, false)[k])
    ensures forall k :: 1 <= k < |Gaps(s, 0, 0, false)| - 1 ==> |Gaps(s, 0, 0, false)[k]| > 0
  {
    TokensReassemble(s, 0, 0, 0, 0);
    assert Reassembles(s, 0, 0, 0, 0);
    assert s[0..] == s;
    GapsAreSeparators(s, 0, 0, false);
  }

  // ---------------------------------------------------------------------
  // Worked examples

  /** Bytes of a run leave the scan state as it is. */
  lemma {:induction false} ScanThroughRun(s: Bytes, i: nat, e: nat, start: nat, w: int)
    requires start <= i <= e <= |s|
    requires forall k :: i <= k < e ==> IsWord(s[k])
    ensures Scan(s, i, start, w) == Scan(s, e, start, w)
    decreases e - i
  {
    if i < e {
      ScanThroughRun(s, i + 1, e, start, w);
    }
  }

  /** Scanning from `j` only looks at the bytes from `i` on. */
  lemma {:induction false} ScanShift(s: Bytes, i: nat, j: nat, start: nat, w: int)
    requires i <= start <= j <= |s|
    ensures Scan(s, j, start, w) == Scan(s[i..], j - i, start - i, w)
    decreases |s| - j
  {
    if j == |s| {
      ShiftEnd(s, i, start);
    } else if IsWord(s[j]) {
      ScanShift(s, i, j + 1, start, w);
      ShiftWord(s, i, j, start, w);
    } else {
      var w' := if start < j && IsKeyword(s[start..j]) then 1 else if IsNewline(s[j]) then 0 else w;
      ScanShift(s, i, j + 1, j + 1, w');
      ShiftSeparator(s, i, j, start, w, w');
    }
  }

  lemma ShiftEnd(s: Bytes, i: nat, start: nat)
    requires i <= start <= |s|
    ensures forall w :: Scan(s, |s|, start, w) == Scan(s[i..], |s| - i, start - i, w)
  {
    assert s[i..][start - i..|s| - i] == s[start..|s|];
  }

  lemma ShiftWord(s: Bytes, i: nat, j: nat, start: nat, w: int)
    requires i <= start <= j < |s| && IsWord(s[j])
    requires Scan(s, j + 1, start, w) == Scan(s[i..], j + 1 - i, start - i, w)
    ensures Scan(s, j, start, w) == Scan(s[i..], j - i, start - i, w)
  {
    assert s[i..][j - i] == s[j];
  }

  lemma ShiftSeparator(s: Bytes, i: nat, j: nat, start: nat, w: int, w': int)
    requires i <= start <= j < |s| && !IsWord(s[j])
    requires w' == if start < j && IsKeyword(s[start..j]) then 1 else if IsNewline(s[j]) then 0 else w
    requires Scan(s, j + 1, j + 1, w') == Scan(s[i..], j + 1 - i, j + 1 - i, w')
    ensures Scan(s, j, start, w) == Scan(s[i..], j - i, start - i, w)
  {
    var t := s[i..];
    assert t[j - i] == s[j];
    assert t[start - i..j - i] == s[start..j];
  }

  /** A run `t` ended by the separator `c`, emitted with boost `b`; scanning goes on with `w'`. */
  lemma ToksRun(t: Bytes, c: Byte, r: Bytes, w: int, b: int, w': int)
    requires |t| > 0 && forall k :: 0 <= k < |t| ==> IsWord(t[k])
    requires !IsWord(c)
    requires b == if IsKeyword(t) then 0 else if IsNewline(c) then 0 else w
    requires w' == if IsKeyword(t) then 1 else if IsNewline(c) then 0 else w
    ensures Toks(t + [c] + r, 0, w) == [Token(t, b)] + Toks(r, 0, w')
  {
    var s := t + [c] + r;
    assert s[0..|t|] == t && s[|t|] == c;
    ScanThroughRun(s, 0, |t|, 0, w);
    assert Scan(s, |t|, 0, w) == [Token(t, b)] + Scan(s, |t| + 1, |t| + 1, w');
    ScanShift(s, |t| + 1, |t| + 1, |t| + 1, w');
    assert s[|t| + 1..] == r;
  }

  /** A separator `c` with no run open; scanning goes on with `w'`. */
  lemma ToksSep(c: Byte, r: Bytes, w: int, w': int)
    requires !IsWord(c)
    requires w' == if IsNewline(c) then 0 else w
    ensures Toks([c] + r, 0, w) == Toks(r, 0, w')
  {
    var s := [c] + r;
    ScanShift(s, 1, 1, 1, w');
    assert s[1..] == r;
  }

  /** A run still open at the end of input. */
  lemma ToksLast(t: Bytes, w: int)
    requires |t| > 0 && forall k :: 0 <= k < |t| ==> IsWord(t[k])
    ensures Toks(t, 0, w) == [Token(t, w)]
  {
    ScanThroughRun(t, 0, |t|, 0, w);
    assert t[0..|t|] == t;
  }

  const Space: Byte := 0x20
  const Newline: Byte := 0x0A
  const Brace: Byte := 0x7B
  const Hello: Bytes := [0x68, 0x65, 0x6C, 0x6C, 0x6F]  // hello
  const Public: Bytes := [0x70, 0x75, 0x62, 0x6C, 0x69, 0x63]  // public
  const Static: Bytes := [0x73, 0x74, 0x61, 0x74, 0x69, 0x63]  // static
  const AtomicLong: Bytes := [0x41, 0x74, 0x6F, 0x6D, 0x69, 0x63, 0x4C, 0x6F, 0x6E, 0x67]  // AtomicLong
  const Foobar: Bytes := [0x66, 0x6F, 0x6F, 0x62, 0x61, 0x72]  // foobar
  const DeadBeef: Bytes := [0x30, 0x78, 0x64, 0x65, 0x61, 0x64, 0x62, 0x65, 0x65, 0x66]  // 0xdeadbeef
  const HelloWorld: Bytes := [0x68, 0x65, 0x6C, 0x6C, 0x6F, 0x5F, 0x77, 0x6F, 0x72, 0x6C, 0x64]  // hello_world
  const Panic: Bytes := [0x70, 0x61, 0x6E, 0x69, 0x63]  // panic
  const Picnic: Bytes := [0x70, 0x69, 0x63, 0x6E, 0x69, 0x63]  // picnic
  const MainWord: Bytes := [0x6D, 0x61, 0x69, 0x6E]  // main
  const Foo: Bytes := [0x66, 0x6F, 0x6F]  // foo

  /** First vector of util_test.go, one run with boost 0: "hello". */
  lemma TokenizeHello()
    ensures Toks(Hello, 0, 0) ==
      [Token(Hello, 0)]
  {
    ToksLast(Hello, 0);
  }

  lemma TokenizeClassBoostFrom4()
    ensures Toks(Foobar, 0, 1) ==
      [Token(Foobar, 1)]
  {
    ToksLast(Foobar, 1);
  }

  lemma TokenizeClassBoostFrom3()
    ensures Toks(AtomicLong + [Space] + (Foobar), 0, 1) ==
      [Token(AtomicLong, 1), Token(Foobar, 1)]
  {
    ToksRun(AtomicLong, Space, Foobar, 1, 1, 1);
    TokenizeClassBoostFrom4();
  }

  lemma TokenizeClassBoostFrom2()
    ensures Toks(Class + [Space] + (AtomicLong + [Space] + (Foobar)), 0, 0) ==
      [Token(Class, 0), Token(AtomicLong, 1), Token(Foobar, 1)]
  {
    ToksRun(Class, Space, AtomicLong + [Space] + (Foobar), 0, 0, 1);
    TokenizeClassBoostFrom3();
  }

  lemma TokenizeClassBoostFrom1()
    ensures Toks(Static + [Space] + (Class + [Space] + (AtomicLong + [Space] + (Foobar))), 0, 0) ==
      [Token(Static, 0), Token(Class, 0), Token(AtomicLong, 1), Token(Foobar, 1)]
  {
    ToksRun(Static, Space, Class + [Space] + (AtomicLong + [Space] + (Foobar)), 0, 0, 0);
    TokenizeClassBoostFrom2();
  }

  /** Second vector of util_test.go: the keyword itself gets 0 and the runs after it 1, case kept: "public static class AtomicLong foobar". */
  lemma TokenizeClassBoost()
    ensures Toks(Public + [Space] + (Static + [Space] + (Class + [Space] + (AtomicLong + [Space] + (Foobar)))), 0, 0) ==
      [Token(Public, 0), Token(Static, 0), Token(Class, 0), Token(AtomicLong, 1), Token(Foobar, 1)]
  {
    ToksRun(Public, Space, Static + [Space] + (Class + [Space] + (AtomicLong + [Space] + (Foobar))), 0, 0, 0);
    TokenizeClassBoostFrom1();
  }

  lemma TokenizeNewlineResetFrom9()
    ensures Toks(MainWord, 0, 1) ==
      [Token(MainWord, 1)]
  {
    ToksLast(MainWord, 1);
  }

  lemma TokenizeNewlineResetFrom8()
    ensures Toks(Sub + [Space] + (MainWord), 0, 0) ==
      [Token(Sub, 0), Token(MainWord, 1)]
  {
    ToksRun(Sub, Space, MainWord, 0, 0, 1);
    TokenizeNewlineResetFrom9();
  }

  lemma TokenizeNewlineResetFrom7()
    ensures Toks(Picnic + [Newline] + (Sub + [Space] + (MainWord)), 0, 0) ==
      [Token(Picnic, 0), Token(Sub, 0), Token(MainWord, 1)]
  {
    ToksRun(Picnic, Newline, Sub + [Space] + (MainWord), 0, 0, 0);
    TokenizeNewlineResetFrom8();
  }

  lemma TokenizeNewlineResetFrom6()
    ensures Toks(Panic + [Space] + (Picnic + [Newline] + (Sub + [Space] + (MainWord))), 0, 0) ==
      [Token(Panic, 0), Token(Picnic, 0), Token(Sub, 0), Token(MainWord, 1)]
  {
    ToksRun(Panic, Space, Picnic + [Newline] + (Sub + [Space] + (MainWord)), 0, 0, 0);
    TokenizeNewlineResetFrom7();
  }

  lemma TokenizeNewlineResetFrom5()
    ensures Toks([Newline] + (Panic + [Space] + (Picnic + [Newline] + (Sub + [Space] + (MainWord)))), 0, 1) ==
      [Token(Panic, 0), Token(Picnic, 0), Token(Sub, 0), Token(MainWord, 1)]
  {
    ToksSep(Newline, Panic + [Space] + (Picnic + [Newline] + (Sub + [Space] + (MainWord))), 1, 0);
    TokenizeNewlineResetFrom6();
  }

  lemma TokenizeNewlineResetFrom4()
    ensures Toks([Brace] + ([Newline] + (Panic + [Space] + (Picnic + [Newline] + (Sub + [Space] + (MainWord))))), 0, 1) ==
      [Token(Panic, 0), Token(Picnic, 0), Token(Sub, 0), Token(MainWord, 1)]
  {
    ToksSep(Brace, [Newline] + (Panic + [Space] + (Picnic + [Newline] + (Sub + [Space] + (MainWord)))), 1, 1);
    TokenizeNewlineResetFrom5();
  }

  lemma TokenizeNewlineResetFrom3()
    ensures Toks(HelloWorld + [Space] + ([Brace] + ([Newline] + (Panic + [Space] + (Picnic + [Newline] + (Sub + [Space] + (MainWord)))))), 0, 1) ==
      [Token(HelloWorld, 1), Token(Panic, 0), Token(Picnic, 0), Token(Sub, 0), Token(MainWord, 1)]
  {
    ToksRun(HelloWorld, Space, [Brace] + ([Newline] + (Panic + [Space] + (Picnic + [Newline] + (Sub + [Space] + (MainWord))))), 1, 1, 1);
    TokenizeNewlineResetFrom4();
  }

  lemma TokenizeNewlineResetFrom2()
    ensures Toks(Sub + [Space] + (HelloWorld + [Space] + ([Brace] + ([Newline] + (Panic + [Space] + (Picnic + [Newline] + (Sub + [Space] + (MainWord))))))), 0, 0) ==
      [Token(Sub, 0), Token(HelloWorld, 1), Token(Panic, 0), Token(Picnic, 0), Token(Sub, 0), Token(MainWord, 1)]
  {
    ToksRun(Sub, Space, HelloWorld + [Space] + ([Brace] + ([Newline] + (Panic + [Space] + (Picnic + [Newline] + (Sub + [Space] + (MainWord)))))), 0, 0, 1);
    TokenizeNewlineResetFrom3();
  }

  lemma TokenizeNewlineResetFrom1()
    ensures Toks(Hello + [Space] + (Sub + [Space] + (HelloWorld + [Space] + ([Brace] + ([Newline] + (Panic + [Space] + (Picnic + [Newline] + (Sub + [Space] + (MainWord)))))))), 0, 0) ==
      [Token(Hello, 0), Token(Sub, 0), Token(HelloWorld, 1), Token(Panic, 0), Token(Picnic, 0), Token(Sub, 0), Token(MainWord, 1)]
  {
    ToksRun(Hello, Space, Sub + [Space] + (HelloWorld + [Space] + ([Brace] + ([Newline] + (Panic + [Space] + (Picnic + [Newline] + (Sub + [Space] + (MainWord))))))), 0, 0, 0);
    TokenizeNewlineResetFrom2();
  }

  /** Third vector of util_test.go: a newline ends the boost; the hex run is kept: "0xdeadbeef hello sub hello_world {\npanic picnic\nsub main". */
  lemma TokenizeNewlineReset()
    ensures Toks(DeadBeef + [Space] + (Hello + [Space] + (Sub + [Space] + (HelloWorld + [Space] + ([Brace] + ([Newline] + (Panic + [Space] + (Picnic + [Newline] + (Sub + [Space] + (MainWord))))))))), 0, 0) ==
      [Token(DeadBeef, 0), Token(Hello, 0), Token(Sub, 0), Token(HelloWorld, 1), Token(Panic, 0), Token(Picnic, 0), Token(Sub, 0), Token(MainWord, 1)]
  {
    ToksRun(DeadBeef, Space, Hello + [Space] + (Sub + [Space] + (HelloWorld + [Space] + ([Brace] + ([Newline] + (Panic + [Space] + (Picnic + [Newline] + (Sub + [Space] + (MainWord)))))))), 0, 0, 0);
    TokenizeNewlineResetFrom1();
  }

  lemma TokenizeKeywordBeforeNewlineFrom1()
    ensures Toks(Foo, 0, 1) ==
      [Token(Foo, 1)]
  {
    ToksLast(Foo, 1);
  }

  /** A keyword that ends a line still boosts the first run of the next line: "class\nfoo". */
  lemma TokenizeKeywordBeforeNewline()
    ensures Toks(Class + [Newline] + (Foo), 0, 0) ==
      [Token(Class, 0), Token(Foo, 1)]
  {
    ToksRun(Class, Newline, Foo, 0, 0, 1);
    TokenizeKeywordBeforeNewlineFrom1();
  }

  lemma TokenizeFinalKeywordFrom1()
    ensures Toks(Class, 0, 1) ==
      [Token(Class, 1)]
  {
    ToksLast(Class, 1);
  }

  /** The run left open at the end is not checked against the keywords: "sub class". */
  lemma TokenizeFinalKeyword()
    ensures Toks(Sub + [Space] + (Class), 0, 0) ==
      [Token(Sub, 0), Token(Class, 1)]
  {
    ToksRun(Sub, Space, Class, 0, 0, 1);
    TokenizeFinalKeywordFrom1();
  }
}
