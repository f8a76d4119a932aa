/**
  Byte strings, the little-endian integer codecs shared by both packages
  (index/util.go and util.go hold identical copies of them) and the raw byte
  order of `bytes.Compare`.

  Bytes and the unsigned Go integer types are bounded `int`s, so that the
  shifts and masks of the source become explicit multiplications, divisions
  and remainders by powers of two.
*/
module Bytes {

  type Byte = x: int | 0 <= x < 0x100
  type U32 = x: int | 0 <= x < 0x1_0000_0000
  type U64 = x: int | 0 <= x < 0x1_0000_0000_0000_0000
  type Bytes = seq<Byte>

  type I32 = x: int | -0x8000_0000 <= x < 0x8000_0000

  /** Go's `int32(x)`: the low 32 bits of x, read as two's complement. */
  function Int32Of(x: int): (r: I32)
    ensures 0 <= x < 0x8000_0000 ==> r == x
    ensures (r - x) % 0x1_0000_0000 == 0
  {
    var low := x % 0x1_0000_0000;
    if low < 0x8000_0000 then low else low - 0x1_0000_0000
  }

  /** 256 to the n: the number of values n bytes can hold. */
  function Pow256(n: nat): (r: nat)
    ensures r >= 1
  {
    if n == 0 then 1 else 256 * Pow256(n - 1)
  }

  /** Little-endian value of a byte string: least significant byte first. */
  function FromLe(b: Bytes): (r: nat)
    ensures r < Pow256(|b|)
  {
    if b == [] then 0 else b[0] + 256 * FromLe(b[1..])
  }

  /** The n little-endian bytes of v; higher bytes are dropped, as Go's `byte(v >> 8k)` drops them. */
  function ToLe(v: nat, n: nat): (r: Bytes)
    ensures |r| == n
  {
    if n == 0 then [] else [v % 256] + ToLe(v / 256, n - 1)
  }

  lemma {:induction false} FromToLe(v: nat, n: nat)
    requires v < Pow256(n)
    ensures FromLe(ToLe(v, n)) == v
  {
    if n > 0 {
      FromToLe(v / 256, n - 1);
      assert ToLe(v, n)[1..] == ToLe(v / 256, n - 1);
    }
  }

  lemma {:induction false} ToFromLe(b: Bytes)
    ensures ToLe(FromLe(b), |b|) == b
  {
    if b != [] {
      ToFromLe(b[1..]);
      assert FromLe(b) % 256 == b[0] && FromLe(b) / 256 == FromLe(b[1..]);
    }
  }

  lemma FromLeStep(b: Bytes, i: nat)
    requires i < |b|
    ensures FromLe(b[i..]) == b[i] + 256 * FromLe(b[i + 1..])
  {
    assert b[i..][1..] == b[i + 1..];
  }

  lemma Pow256Widths()
    ensures Pow256(4) == 0x1_0000_0000 && Pow256(8) == 0x1_0000_0000_0000_0000
  {
    assert Pow256(2) == 0x1_0000;
    assert Pow256(4) == 0x1_0000_0000;
    assert Pow256(6) == 0x1_0000_0000_0000;
  }

  /** Go's `getUint32(b, off)`: four bytes, least significant first. */
  function GetUint32(b: Bytes, off: nat): (r: U32)
    requires off + 4 <= |b|
  {
    Pow256Widths();
    FromLe(b[off..off + 4])
  }

  /** The 32-bit word at `off`: byte k of it weighs 256^k. */
  lemma GetUint32Bytes(b: Bytes, off: nat)
    requires off + 4 <= |b|
    ensures GetUint32(b, off) == b[off] as int + 0x100 * b[off + 1] as int + 0x1_0000 * b[off + 2] as int + 0x100_0000 * b[off + 3] as int
  {
    var w := b[off..off + 4];
    FromLeStep(w, 0);
    FromLeStep(w, 1);
    FromLeStep(w, 2);
    FromLeStep(w, 3);
    assert w[4..] == [];
  }

  /** Go's `getUint64(b, off)`. */
  function GetUint64(b: Bytes, off: nat): (r: U64)
    requires off + 8 <= |b|
  {
    Pow256Widths();
    FromLe(b[off..off + 8])
  }

  /** The 64-bit word at `off`: byte k of it weighs 256^k. */
  lemma GetUint64Bytes(b: Bytes, off: nat)
    requires off + 8 <= |b|
    ensures GetUint64(b, off) == b[off] as int + 0x100 * b[off + 1] as int + 0x1_0000 * b[off + 2] as int + 0x100_0000 * b[off + 3] as int
      + 0x1_0000_0000 * b[off + 4] as int + 0x100_0000_0000 * b[off + 5] as int + 0x1_0000_0000_0000 * b[off + 6] as int + 0x100_0000_0000_0000 * b[off + 7] as int
  {
    var w := b[off..off + 8];
    FromLeStep(w, 0);
    FromLeStep(w, 1);
    FromLeStep(w, 2);
    FromLeStep(w, 3);
    FromLeStep(w, 4);
    FromLeStep(w, 5);
    FromLeStep(w, 6);
    FromLeStep(w, 7);
    assert w[8..] == [];
  }

  /** The four bytes `putUint32` writes: byte k is `(v >> 8k) & 0xFF`. */
  function Le32(v: U32): (r: Bytes)
    ensures |r| == 4 && GetUint32(r, 0) == v
  {
    Pow256Widths();
    FromToLe(v, 4);
    assert ToLe(v, 4)[0..4] == ToLe(v, 4);
    ToLe(v, 4)
  }

  /** The eight bytes `putUint64` writes. */
  function Le64(v: U64): (r: Bytes)
    ensures |r| == 8 && GetUint64(r, 0) == v
  {
    Pow256Widths();
    FromToLe(v, 8);
    assert ToLe(v, 8)[0..8] == ToLe(v, 8);
    ToLe(v, 8)
  }

  /** The bytes of `Le32`, one by one. */
  lemma Le32Bytes(v: U32)
    ensures Le32(v) == [v % 0x100, (v / 0x100) % 0x100, (v / 0x1_0000) % 0x100, (v / 0x100_0000) % 0x100]
  {
    assert v / 0x100 / 0x100 == v / 0x1_0000 && v / 0x1_0000 / 0x100 == v / 0x100_0000;
    assert ToLe(v / 0x100_0000, 1) == [(v / 0x100_0000) % 0x100];
    assert ToLe(v / 0x1_0000, 2) == [(v / 0x1_0000) % 0x100] + ToLe(v / 0x100_0000, 1);
    assert ToLe(v / 0x100, 3) == [(v / 0x100) % 0x100] + ToLe(v / 0x1_0000, 2);
  }

  /** The bytes of `Le64`, one by one. */
  lemma Le64Bytes(v: U64)
    ensures Le64(v) == [v % 0x100, (v / 0x100) % 0x100, (v / 0x1_0000) % 0x100, (v / 0x100_0000) % 0x100,
      (v / 0x1_0000_0000) % 0x100, (v / 0x100_0000_0000) % 0x100,
      (v / 0x1_0000_0000_0000) % 0x100, (v / 0x100_0000_0000_0000) % 0x100]
  {
    assert v / 0x100 / 0x100 == v / 0x1_0000;
    assert v / 0x1_0000 / 0x100 == v / 0x100_0000;
    assert v / 0x100_0000 / 0x100 == v / 0x1_0000_0000;
    assert v / 0x1_0000_0000 / 0x100 == v / 0x100_0000_0000;
    assert v / 0x100_0000_0000 / 0x100 == v / 0x1_0000_0000_0000;
    assert v / 0x1_0000_0000_0000 / 0x100 == v / 0x100_0000_0000_0000;
    assert ToLe(v / 0x100_0000_0000_0000, 1) == [(v / 0x100_0000_0000_0000) % 0x100];
    assert ToLe(v / 0x1_0000_0000_0000, 2) == [(v / 0x1_0000_0000_0000) % 0x100] + ToLe(v / 0x100_0000_0000_0000, 1);
    assert ToLe(v / 0x100_0000_0000, 3) == [(v / 0x100_0000_0000) % 0x100] + ToLe(v / 0x1_0000_0000_0000, 2);
    assert ToLe(v / 0x1_0000_0000, 4) == [(v / 0x1_0000_0000) % 0x100] + ToLe(v / 0x100_0000_0000, 3);
    assert ToLe(v / 0x100_0000, 5) == [(v / 0x100_0000) % 0x100] + ToLe(v / 0x1_0000_0000, 4);
    assert ToLe(v / 0x1_0000, 6) == [(v / 0x1_0000) % 0x100] + ToLe(v / 0x100_0000, 5);
    assert ToLe(v / 0x100, 7) == [(v / 0x100) % 0x100] + ToLe(v / 0x1_0000, 6);
  }

  /** Reading at an offset of a concatenation reads inside the right part. */
  lemma GetUint32Within(a: Bytes, b: Bytes, c: Bytes)
    requires |b| == 4
    ensures GetUint32(a + b + c, |a|) == GetUint32(b, 0)
  {
    assert (a + b + c)[|a|..|a| + 4] == b[0..4];
  }

  lemma GetUint64Within(a: Bytes, b: Bytes, c: Bytes)
    requires |b| == 8
    ensures GetUint64(a + b + c, |a|) == GetUint64(b, 0)
  {
    assert (a + b + c)[|a|..|a| + 8] == b[0..8];
  }

  /** Decoding is also a left inverse: re-encoding what was read gives back the bytes. */
  lemma Le32OfGet(b: Bytes, off: nat)
    requires off + 4 <= |b|
    ensures Le32(GetUint32(b, off)) == b[off..off + 4]
  {
    ToFromLe(b[off..off + 4]);
  }

  lemma Le64OfGet(b: Bytes, off: nat)
    requires off + 8 <= |b|
    ensures Le64(GetUint64(b, off)) == b[off..off + 8]
  {
    ToFromLe(b[off..off + 8]);
  }

  /**
   * Go's `putUint32Off(b, off, v)`: overwrites exactly bytes off..off+3
   * with `Le32(v)`, whose bytes `Le32Bytes` spells out as `byte(v >> 8k)`.
   */
  method PutUint32Off(b: array<Byte>, off: nat, v: U32)
    requires off + 4 <= b.Length
    modifies b
    ensures b[..] == old(b[..off]) + Le32(v) + old(b[off + 4..])
    ensures GetUint32(b[..], off) == v
  {
    var e := Le32(v);
    b[off] := e[0];
    b[off + 1] := e[1];
    b[off + 2] := e[2];
    b[off + 3] := e[3];
    assert b[..off] == old(b[..off]);
    assert b[off..off + 4] == e;
    assert b[off + 4..] == old(b[off + 4..]);
    assert b[..] == b[..off] + b[off..off + 4] + b[off + 4..];
    GetUint32Within(old(b[..off]), e, old(b[off + 4..]));
  }

  /** Go's `putUint32(b, v)`: the same at offset 0. */
  method PutUint32(b: array<Byte>, v: U32)
    requires 4 <= b.Length
    modifies b
    ensures b[..] == Le32(v) + old(b[4..])
    ensures GetUint32(b[..], 0) == v
  {
    PutUint32Off(b, 0, v);
    assert old(b[..0]) == [];
  }

  /** Go's `putUint64(b, v)`: the eight bytes of `Le64(v)` (see `Le64Bytes`) at the front of `b`. */
  method PutUint64(b: array<Byte>, v: U64)
    requires 8 <= b.Length
    modifies b
    ensures b[..] == Le64(v) + old(b[8..])
    ensures GetUint64(b[..], 0) == v
  {
    var e := Le64(v);
    for k := 0 to 8
      invariant b[..k] == e[..k] && b[k..] == old(b[k..])
    {
      b[k] := e[k];
      assert b[..k + 1] == b[..k] + [e[k]];
    }
    assert b[..] == b[..8] + b[8..];
    GetUint64Within([], e, old(b[8..]));
  }

  // ---------------------------------------------------------------------
  // bytes.Compare: raw lexicographic byte order

  /** -1, 0 or +1 as `bytes.Compare(a, b)`; a proper prefix sorts first. */
  function Compare(a: Bytes, b: Bytes): (r: int)
    ensures r == 0 <==> a == b
    ensures -1 <= r <= 1
  {
    if a == [] && b == [] then 0
    else if a == [] then -1
    else if b == [] then 1
    else if a[0] < b[0] then -1
    else if a[0] > b[0] then 1
    else
      assert a == [a[0]] + a[1..] && b == [b[0]] + b[1..];
      Compare(a[1..], b[1..])
  }

  predicate Less(a: Bytes, b: Bytes) {
    Compare(a, b) < 0
  }

  lemma {:induction false} CompareAntisym(a: Bytes, b: Bytes)
    ensures Compare(a, b) == -Compare(b, a)
  {
    if a != [] && b != [] && a[0] == b[0] {
      CompareAntisym(a[1..], b[1..]);
    }
  }

  lemma {:induction false} LessTransitive(a: Bytes, b: Bytes, c: Bytes)
    requires Less(a, b) && Less(b, c)
    ensures Less(a, c)
  {
    if a != [] && b != [] && c != [] && a[0] == b[0] == c[0] {
      LessTransitive(a[1..], b[1..], c[1..]);
    }
  }

  /** Two distinct byte strings are ordered exactly one way. */
  lemma LessTotal(a: Bytes, b: Bytes)
    requires a != b
    ensures Less(a, b) != Less(b, a)
  {
    CompareAntisym(a, b);
  }

  /** Strictly ascending in byte order, pairwise. */
  predicate StrictlySorted(s: seq<Bytes>) {
    forall i, j :: 0 <= i < j < |s| ==> Less(s[i], s[j])
  }

  // ---------------------------------------------------------------------
  // ASCII case folding

  predicate IsUpper(c: Byte) { 'A' as int <= c <= 'Z' as int }

  /** `c | 0x20` on upper-case letters, the identity elsewhere. */
  function LowerByte(c: Byte): (r: Byte)
    ensures IsUpper(c) ==> r == c + 32
    ensures !IsUpper(c) ==> r == c
  {
    if IsUpper(c) then c + 0x20 else c
  }

  /** `strings.ToLower`, restricted to ASCII. */
  function ToLower(s: Bytes): (r: Bytes)
    ensures |r| == |s|
    ensures forall k :: 0 <= k < |s| ==> r[k] == LowerByte(s[k])
  {
    seq(|s|, k requires 0 <= k < |s| => LowerByte(s[k]))
  }
}
