/** Unsigned machine integers. Arithmetic is on `int`; every wrap-around and
    truncation is written out. */
module Words {

  type Byte = x: int | 0 <= x < 0x100

  type Word = x: int | 0 <= x < 0x1_0000

  /** `static_cast<uint16_t>` of any integer. */
  function ToWord(x: int): Word {
    x % 0x1_0000
  }

  /** `static_cast<uint8_t>` of any integer. */
  function ToByte(x: int): Byte {
    x % 0x100
  }

  /** A truncated number differs from the number by whole multiples of 2^16, or 2^8. */
  lemma Truncation(x: int) returns (k: int, l: int)
    ensures x == ToWord(x) + 0x1_0000 * k && x == ToByte(x) + 0x100 * l
    ensures 0 <= x < 0x1_0000 ==> ToWord(x) == x
    ensures 0 <= x < 0x100 ==> ToByte(x) == x
  {
    k, l := x / 0x1_0000, x / 0x100;
  }

  /** How often 0x100 goes into `n`, and what is left: a division that proofs see
      through only where they ask for it. */
  function Pages(n: nat): nat {
    if n < 0x100 then 0 else 1 + Pages(n - 0x100)
  }

  function Rest(n: nat): Byte {
    if n < 0x100 then n else Rest(n - 0x100)
  }

  function Total(pages: nat, rest: nat): nat {
    if pages == 0 then rest else 0x100 + Total(pages - 1, rest)
  }

  lemma {:induction false} PagesAndRest(n: nat)
    ensures n == 0x100 * Pages(n) + Rest(n)
  {
    if 0x100 <= n {
      PagesAndRest(n - 0x100);
    }
  }

  lemma {:induction false} TotalIs(pages: nat, rest: nat)
    ensures Total(pages, rest) == 0x100 * pages + rest
  {
    if pages > 0 {
      TotalIs(pages - 1, rest);
    }
  }

  /** `w >> 8` */
  function High(w: Word): Byte {
    PagesAndRest(w);
    Pages(w)
  }

  /** `w & 0xFF` */
  function Low(w: Word): Byte {
    Rest(w)
  }

  /** `high << 8 | low` */
  function Join(high: Byte, low: Byte): Word {
    TotalIs(high, low);
    Total(high, low)
  }

  /** The same as quotient, remainder and sum. */
  lemma HalvesOfWord(w: Word, high: Byte, low: Byte)
    ensures High(w) == w / 0x100 && Low(w) == w % 0x100 && Join(high, low) == 0x100 * high as int + low as int
  {
    PagesAndRest(w);
    TotalIs(high, low);
  }

  lemma JoinSplits(high: Byte, low: Byte)
    ensures High(Join(high, low)) == high && Low(Join(high, low)) == low
  {
    TotalIs(high, low);
    PagesAndRest(Join(high, low));
  }

  lemma SplitJoins(w: Word)
    ensures Join(High(w), Low(w)) == w
  {
    PagesAndRest(w);
    TotalIs(High(w), Low(w));
  }

  /** The i-th byte, or 0 behind the end. */
  function At(s: seq<Byte>, i: nat): Byte {
    if i < |s| then s[i] else 0
  }
}
