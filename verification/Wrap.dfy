/** Free-running 32-bit counters and the ring slots they select. A slot is written as repeated subtraction
    so that proofs about rings see it as a plain function; Index ties it to the machine's `%`. */
module Wrap {

  const WORD: nat := 0x1_0000_0000

  /** A counter as a 32-bit machine word holds it. */
  function U32(k: nat): (r: nat)
    ensures r < WORD
  {
    k % WORD
  }

  /** The slot counter value k selects in a ring of 2^p * 128 entries (size 128 or 512 here). */
  function Slot(k: nat, size: nat): (r: nat)
    requires size > 0
    ensures r < size
  {
    if k < size then k else Slot(k - size, size)
  }

  lemma {:induction false} Slot128(k: nat)
    ensures Slot(k, 128) == k % 128
  {
    if k >= 128 { Slot128(k - 128); }
  }

  lemma {:induction false} Slot512(k: nat)
    ensures Slot(k, 512) == k % 512
  {
    if k >= 512 { Slot512(k - 512); }
  }

  lemma PureWords(k: nat)
    ensures (k % WORD + 1) % WORD == (k + 1) % WORD
    ensures k > 0 ==> (k % WORD + WORD - 1) % WORD == (k - 1) % WORD
  {}

  lemma {:induction false} Drop128(a: nat, b: nat)
    ensures (a + 128 * b) % 128 == a % 128
  {
    if b > 0 { Drop128(a, b - 1); }
  }

  lemma {:induction false} Drop512(a: nat, b: nat)
    ensures (a + 512 * b) % 512 == a % 512
  {
    if b > 0 { Drop512(a, b - 1); }
  }

  lemma PureSlots(k: nat)
    ensures k % WORD % 128 == k % 128 && k % WORD % 512 == k % 512
  {
    Drop128(k % WORD, k / WORD * (WORD / 128));
    Drop512(k % WORD, k / WORD * (WORD / 512));
  }

  lemma PureDistance(r: nat, e: nat)
    requires r <= e <= r + 512
    ensures (e % WORD + WORD - r % WORD) % WORD == e - r
    ensures r % WORD == e % WORD <==> r == e
    ensures (r % WORD + 512) % WORD == (r + 512) % WORD
  {}

  /** x++ on a 32-bit word holding counter k. */
  method Inc(x: nat, ghost k: nat) returns (y: nat)
    requires x == U32(k)
    ensures y == U32(k + 1)
  {
    PureWords(k);
    y := (x + 1) % WORD;
  }

  /** x-- on a 32-bit word holding counter k. */
  method Dec(x: nat, ghost k: nat) returns (y: nat)
    requires k > 0 && x == U32(k)
    ensures y == U32(k - 1)
  {
    PureWords(k);
    y := (x + WORD - 1) % WORD;
  }

  /** a - b in 32-bit words, for counters within a ring of each other. */
  method Sub(a: nat, b: nat, ghost e: nat, ghost r: nat) returns (d: nat)
    requires a == U32(e) && b == U32(r) && r <= e <= r + 512
    ensures d == e - r
  {
    PureDistance(r, e);
    d := (a + WORD - b) % WORD;
  }

  /** x + 512 in 32-bit words. */
  method Add512(x: nat, ghost k: nat) returns (y: nat)
    requires x == U32(k)
    ensures y == U32(k + 512)
  {
    PureDistance(k, k);
    y := (x + 512) % WORD;
  }

  /** x % size, for the two ring sizes in use. */
  method Index(x: nat, size: nat, ghost k: nat) returns (i: nat)
    requires x == U32(k) && (size == 128 || size == 512)
    ensures i == Slot(k, size)
  {
    PureSlots(k);
    Slot128(k);
    Slot512(k);
    i := x % size;
  }

  /** While two counters are within a ring of each other, their words are equal only if they are. */
  lemma SameWord(r: nat, e: nat)
    requires r <= e <= r + 512
    ensures U32(r) == U32(e) <==> r == e
  {
    PureDistance(r, e);
  }

  /** Distinct counters less than a ring apart select distinct slots. */
  lemma {:induction false} SlotsDiffer(j: nat, k: nat, size: nat)
    requires j < k < j + size
    ensures Slot(j, size) != Slot(k, size)
  {
    if j >= size { SlotsDiffer(j - size, k - size, size); }
  }
}
