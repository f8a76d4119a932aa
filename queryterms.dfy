/**
 * The query side of tokenisation (util.go): every piece of text the
 * query scanner produces is lower-cased, kept only when it is made of
 * lower-case letters, digits and '_' with at least one non-digit (and
 * is not a "0x..."-like literal), and cut to MAX_TOKEN_LEN bytes.
 */
module QueryTerms {
  import opened Bytes

  /** main.go: tokens longer than this are cut. */
  const MAX_TOKEN_LEN: nat := 10

  predicate IsDigit(c: Byte) { '0' as int <= c <= '9' as int }

  predicate IsLowerOrUnderscore(c: Byte) { 'a' as int <= c <= 'z' as int || c == '_' as int }

  /** The bytes a query term may be made of. */
  predicate Allowed(c: Byte) { IsDigit(c) || IsLowerOrUnderscore(c) }

  /**
   * What `isAlphaNumericNotOnlyDigit` accepts, said declaratively: only
   * allowed bytes, at least one of them not a digit, and no 'x' as the
   * second byte (the `zerox` flag starts out true and is never cleared,
   * so any second 'x' rejects, not only the one after a leading '0').
   */
  predicate Accepted(s: Bytes) {
    && (forall k :: 0 <= k < |s| ==> Allowed(s[k]))
    && (exists k :: 0 <= k < |s| && !IsDigit(s[k]))
    && !(|s| >= 2 && s[1] == 'x' as int)
  }

  /**
   * The filter itself, one byte at a time. Go ranges over runes; a
   * non-ASCII rune is rejected on its first byte here and on the rune
   * there, and `nDigit` is compared with the byte length in both.
   */
  method IsAlphaNumericNotOnlyDigit(s: Bytes) returns (ok: bool)
    ensures ok == Accepted(s)
  {
    var nDigit := 0;
    var zerox := true;
    var i := 0;
    while i < |s|
      invariant 0 <= i <= |s|
      invariant zerox
      invariant forall k :: 0 <= k < i ==> Allowed(s[k])
      invariant nDigit <= i
      invariant nDigit == i <==> forall k :: 0 <= k < i ==> IsDigit(s[k])
      invariant i >= 2 ==> s[1] != 'x' as int
    {
      var c := s[i];
      if zerox && i == 1 && c == 'x' as int {
        return false;
      }
      if IsDigit(c) {
        nDigit := nDigit + 1;
        if i == 0 && c == '0' as int {
          zerox := true;
        }
        i := i + 1;
        continue;
      }
      if !IsLowerOrUnderscore(c) {
        assert !Allowed(s[i]);
        return false;
      }
      i := i + 1;
    }
    if nDigit == |s| {
      return false;
    }
    assert !IsDigit(s[nDigit]) || exists k :: 0 <= k < |s| && !IsDigit(s[k]);
    return true;
  }

  /** `text[:MAX_TOKEN_LEN]` when longer, the text itself otherwise. */
  function Cut(text: Bytes): (r: Bytes)
    ensures |r| == if |text| > MAX_TOKEN_LEN then MAX_TOKEN_LEN else |text|
    ensures r <= text
  {
    if |text| > MAX_TOKEN_LEN then text[..MAX_TOKEN_LEN] else text
  }

  /**
   * The term one scanned text contributes: none when its lower-cased
   * form is rejected, otherwise that form cut to its first
   * MAX_TOKEN_LEN bytes.
   */
  function TermOf(text: Bytes): (r: seq<Bytes>)
    ensures |r| <= 1
    ensures !Accepted(ToLower(text)) ==> r == []
    ensures Accepted(ToLower(text)) && |text| <= MAX_TOKEN_LEN ==> r == [ToLower(text)]
    ensures Accepted(ToLower(text)) && |text| > MAX_TOKEN_LEN ==> r == [ToLower(text)[..MAX_TOKEN_LEN]]
  {
    var low := ToLower(text);
    if |low| > 0 && Accepted(low) then [Cut(low)] else []
  }

  /** The terms a whole scan contributes, in scan order. */
  function Terms(texts: seq<Bytes>): seq<Bytes> {
    if texts == [] then [] else Terms(texts[..|texts| - 1]) + TermOf(texts[|texts| - 1])
  }

  /**
   * `tokenize` with the scanner's output given as the sequence of its
   * token texts (the last one being the empty text at end of input);
   * `cb` appends each kept term to the result.
   */
  method Tokenize(texts: seq<Bytes>) returns (terms: seq<Bytes>)
    ensures terms == Terms(texts)
  {
    terms := [];
    var i := 0;
    while i < |texts|
      invariant 0 <= i <= |texts|
      invariant terms == Terms(texts[..i])
    {
      var text := ToLower(texts[i]);
      assert texts[..i + 1][..i] == texts[..i];
      if |text| > 0 {
        var ok := IsAlphaNumericNotOnlyDigit(text);
        if ok {
          if |text| > MAX_TOKEN_LEN {
            terms := terms + [text[..MAX_TOKEN_LEN]];
          } else {
            terms := terms + [text];
          }
        }
      }
      i := i + 1;
    }
    assert texts[..|texts|] == texts;
  }

  /** Lower-casing after filtering leaves an accepted text unchanged. */
  lemma AcceptedIsLower(s: Bytes)
    requires Accepted(s)
    ensures ToLower(s) == s
  {
    forall k | 0 <= k < |s|
      ensures ToLower(s)[k] == s[k]
    {
      assert Allowed(s[k]);
    }
  }

  /**
   * Every term is 1 to MAX_TOKEN_LEN bytes of lower-case letters,
   * digits and '_', and is a prefix of the lower-cased text of some
   * scanned token.
   */
  lemma {:induction false} TermsShape(texts: seq<Bytes>)
    ensures forall t :: t in Terms(texts) ==>
      && 1 <= |t| <= MAX_TOKEN_LEN
      && (forall k :: 0 <= k < |t| ==> Allowed(t[k]))
      && (exists j :: 0 <= j < |texts| && t <= ToLower(texts[j]))
  {
    if texts != [] {
      var init := texts[..|texts| - 1];
      TermsShape(init);
      forall t | t in Terms(texts)
        ensures 1 <= |t| <= MAX_TOKEN_LEN
        ensures forall k :: 0 <= k < |t| ==> Allowed(t[k])
        ensures exists j :: 0 <= j < |texts| && t <= ToLower(texts[j])
      {
        if t in Terms(init) {
          var j :| 0 <= j < |init| && t <= ToLower(init[j]);
          assert texts[j] == init[j];
        } else {
          assert t in TermOf(texts[|texts| - 1]);
          var low := ToLower(texts[|texts| - 1]);
          assert t == Cut(low) && Accepted(low);
          assert t <= ToLower(texts[|texts| - 1]);
        }
      }
    }
  }

  /** The terms of two scans in a row are the terms of each, in order. */
  lemma {:induction false} TermsAppend(a: seq<Bytes>, b: seq<Bytes>)
    ensures Terms(a + b) == Terms(a) + Terms(b)
    decreases |b|
  {
    if b == [] {
      assert a + b == a;
    } else {
      var b0, last := b[..|b| - 1], b[|b| - 1];
      TermsAppend(a, b0);
      assert (a + b)[..|a + b| - 1] == a + b0 && (a + b)[|a + b| - 1] == last;
      assert Terms(a + b) == Terms(a + b0) + TermOf(last);
      assert Terms(b) == Terms(b0) + TermOf(last);
    }
  }

  // ---------------------------------------------------------------------
  // Behaviour on particular inputs

  const HexLiteral: Bytes := ['0' as int, 'x' as int, 'd' as int, 'e' as int, 'a' as int, 'd' as int]
  const Axe: Bytes := ['a' as int, 'x' as int, 'e' as int]
  const Digits: Bytes := ['1' as int, '2' as int, '3' as int, '4' as int, '5' as int,
                          '6' as int, '7' as int, '8' as int, '9' as int, '0' as int]
  const DigitsThenWord: Bytes := Digits + ['a' as int, 'b' as int, 'c' as int]

  /** "0xdead" is rejected as a hex literal; so is "axe", which is not one. */
  lemma SecondByteX()
    ensures !Accepted(HexLiteral) && !Accepted(Axe)
    ensures |HexLiteral| > 0 && TermOf(HexLiteral) == [] && TermOf(Axe) == []
  {
  }

  /** The empty text and a text of digits only are never terms. */
  lemma NotOnlyDigits(s: Bytes)
    requires forall k :: 0 <= k < |s| ==> IsDigit(s[k])
    ensures !Accepted(s) && TermOf(s) == []
  {
    assert ToLower(s) == s;
  }

  /**
   * Cutting happens after the filter, so a term can consist of digits
   * only: "1234567890abc" is accepted and becomes "1234567890", which
   * the filter itself rejects.
   */
  lemma CutAfterFilter()
    ensures Accepted(DigitsThenWord)
    ensures TermOf(DigitsThenWord) == [Digits]
    ensures !Accepted(Digits)
  {
    assert !IsDigit(DigitsThenWord[10]);
    AcceptedIsLower(DigitsThenWord);
    assert DigitsThenWord[..MAX_TOKEN_LEN] == Digits;
    NotOnlyDigits(Digits);
  }
}
