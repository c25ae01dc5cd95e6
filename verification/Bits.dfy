/** Single bits of a number, and bits packed into bytes, least significant
    first. */
module Bits {
  import opened Words

  function Pow2(n: nat): (p: nat)
    ensures 0 < p
  {
    if n == 0 then 1 else 2 * Pow2(n - 1)
  }

  /** (b & (1 << j)) != 0 */
  predicate BitOf(b: nat, j: nat) {
    if j == 0 then b % 2 == 1 else BitOf(b / 2, j - 1)
  }

  /** A number is its lowest bit and twice what the others are worth, ... */
  lemma LowestBit(b: nat)
    ensures b == (if BitOf(b, 0) then 1 else 0) + 2 * (b / 2)
    ensures forall j: nat :: BitOf(b, j + 1) == BitOf(b / 2, j)
  {
  }

  /** ... so a byte is the sum of what its eight bits are worth. */
  lemma ByteIsSum(b: Byte)
    ensures b == (if BitOf(b, 0) then 1 else 0) + (if BitOf(b, 1) then 2 else 0) + (if BitOf(b, 2) then 4 else 0)
                 + (if BitOf(b, 3) then 8 else 0) + (if BitOf(b, 4) then 16 else 0) + (if BitOf(b, 5) then 32 else 0)
                 + (if BitOf(b, 6) then 64 else 0) + (if BitOf(b, 7) then 128 else 0)
  {
    hide BitOf;
    var c := b / 2 / 2 / 2 / 2;
    HalfByteIsSum(b);
    HalfByteIsSum(c);
    UpperBits(b, 0);
    UpperBits(b, 1);
    UpperBits(b, 2);
    UpperBits(b, 3);
    assert c / 2 / 2 / 2 / 2 == 0;
  }

  lemma UpperBits(b: nat, j: nat)
    ensures BitOf(b, j + 4) == BitOf(b / 2 / 2 / 2 / 2, j)
  {
    assert BitOf(b, j + 4) == BitOf(b / 2, j + 3) == BitOf(b / 2 / 2, j + 2) == BitOf(b / 2 / 2 / 2, j + 1);
  }

  lemma HalfByteIsSum(b: nat)
    ensures b == (if BitOf(b, 0) then 1 else 0) + (if BitOf(b, 1) then 2 else 0) + (if BitOf(b, 2) then 4 else 0)
                 + (if BitOf(b, 3) then 8 else 0) + 16 * (b / 2 / 2 / 2 / 2)
  {
    LowestBit(b);
    LowestBit(b / 2);
    LowestBit(b / 2 / 2);
    LowestBit(b / 2 / 2 / 2);
    assert BitOf(b, 1) == BitOf(b / 2, 0);
    assert BitOf(b, 2) == BitOf(b / 2, 1) == BitOf(b / 2 / 2, 0);
    assert BitOf(b, 3) == BitOf(b / 2, 2) == BitOf(b / 2 / 2, 1) == BitOf(b / 2 / 2 / 2, 0);
  }

  /** b | (1 << j) */
  function SetBit(b: nat, j: nat): nat {
    if j == 0 then b / 2 * 2 + 1 else b % 2 + 2 * SetBit(b / 2, j - 1)
  }

  /** b & ~(1 << j) */
  function ClearBit(b: nat, j: nat): nat {
    if j == 0 then b / 2 * 2 else b % 2 + 2 * ClearBit(b / 2, j - 1)
  }

  /** Numbers below 2^n have their bits below n. */
  lemma {:induction false} BitsKeepRange(b: nat, j: nat, n: nat)
    requires b < Pow2(n) && j < n
    ensures SetBit(b, j) < Pow2(n) && ClearBit(b, j) < Pow2(n)
  {
    var half, p := b / 2, Pow2(n - 1);
    assert Pow2(n) == 2 * p && half < p;
    if j > 0 {
      BitsKeepRange(half, j - 1, n - 1);
      assert SetBit(half, j - 1) + 1 <= p && ClearBit(half, j - 1) + 1 <= p;
    }
  }

  lemma {:induction false} SetBitSets(b: nat, j: nat, i: nat)
    ensures BitOf(SetBit(b, j), i) == (i == j || BitOf(b, i))
  {
    if j > 0 && i > 0 {
      SetBitSets(b / 2, j - 1, i - 1);
    }
  }

  lemma {:induction false} ClearBitClears(b: nat, j: nat, i: nat)
    ensures BitOf(ClearBit(b, j), i) == (i != j && BitOf(b, i))
  {
    if j > 0 && i > 0 {
      ClearBitClears(b / 2, j - 1, i - 1);
    }
  }

  lemma {:induction false} ZeroHasNoBits(j: nat)
    ensures !BitOf(0, j)
  {
    if j > 0 {
      ZeroHasNoBits(j - 1);
    }
  }

  /** A number is determined by its bits. */
  lemma {:induction false} SameBitsSameNumber(a: nat, b: nat, n: nat)
    requires a < Pow2(n) && b < Pow2(n)
    requires forall j | 0 <= j < n :: BitOf(a, j) == BitOf(b, j)
    ensures a == b
  {
    if n > 0 {
      assert BitOf(a, 0) == BitOf(b, 0);
      forall j | 0 <= j < n - 1 ensures BitOf(a / 2, j) == BitOf(b / 2, j) {
        assert BitOf(a, j + 1) == BitOf(b, j + 1);
      }
      SameBitsSameNumber(a / 2, b / 2, n - 1);
    }
  }

  /** The byte whose first `n` bits are `bits[at..at + n]`, 0 behind the end. */
  function Packed(bits: seq<bool>, at: nat, n: nat): (b: Byte)
    requires n <= 8
    ensures b < Pow2(n)
    ensures forall j | 0 <= j < 8 :: BitOf(b, j) == (j < n && at + j < |bits| && bits[at + j])
  {
    if n == 0 then (NoBits(); 0)
    else
      var k := n - 1;
      var b := Packed(bits, at, k);
      PackStep(b, k);
      if at + k < |bits| && bits[at + k] then SetBit(b, k) else b
  }

  lemma NoBits()
    ensures forall j | 0 <= j < 8 :: !BitOf(0, j)
  {
    forall j | 0 <= j < 8 ensures !BitOf(0, j) {
      ZeroHasNoBits(j);
    }
  }

  lemma PackStep(b: Byte, k: nat)
    requires k < 8 && b < Pow2(k)
    ensures SetBit(b, k) < Pow2(k + 1) <= 0x100
    ensures forall j | 0 <= j < 8 :: BitOf(SetBit(b, k), j) == (j == k || BitOf(b, j))
  {
    PowGrows(k, k + 1);
    BitsKeepRange(b, k, k + 1);
    PowGrows(k + 1, 8);
    assert Pow2(8) == 256 by { assert Pow2(5) == 32; }
    forall j | 0 <= j < 8 ensures BitOf(SetBit(b, k), j) == (j == k || BitOf(b, j)) {
      SetBitSets(b, k, j);
    }
  }

  lemma {:induction false} PowGrows(m: nat, n: nat)
    requires m <= n
    ensures Pow2(m) <= Pow2(n)
  {
    if m < n {
      PowGrows(m, n - 1);
    }
  }

  /** Bits in groups of eight. */
  function PackAll(bits: seq<bool>, n: nat): (s: seq<Byte>)
    ensures |s| == n
  {
    seq<Byte>(n, b requires 0 <= b < n => Packed(bits, 8 * b, 8))
  }

  /** Which of the words are not 0. */
  function Bools(ws: seq<Word>): (s: seq<bool>)
    ensures |s| == |ws|
  {
    seq(|ws|, i requires 0 <= i < |ws| => ws[i] != 0)
  }
}
