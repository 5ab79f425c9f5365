/** The two encodings kernel/fs.c reads out of a 1024-byte block: free-map bits and little-endian 32-bit words. */
module FsBits {

  const BPB: nat := 8192
  const NINDIRECT: nat := 256

  type BitBlock = b: seq<bv8> | |b| == 1024 witness seq(1024, i => 0)

  newtype byte = x: int | 0 <= x < 256

  type Block = b: seq<byte> | |b| == 1024 witness seq(1024, i => 0)

  // ---------------------------------------------------------------- bits

  /** 1 << k. */
  function Mask(k: nat): (m: bv8)
    requires k < 8
  {
    match k
    case 0 => 1 case 1 => 2 case 2 => 4 case 3 => 8 case 4 => 16 case 5 => 32 case 6 => 64 case 7 => 128
  }

  predicate Has(x: bv8, k: nat)
    requires k < 8
  {
    x & Mask(k) != 0
  }

  function With(x: bv8, k: nat): bv8
    requires k < 8
  {
    x | Mask(k)
  }

  function Without(x: bv8, k: nat): bv8
    requires k < 8
  {
    x & !Mask(k)
  }

  lemma HasWith(x: bv8, j: nat, k: nat)
    requires j < 8 && k < 8
    ensures Has(With(x, j), k) <==> j == k || Has(x, k)
  {}

  lemma HasWithout(x: bv8, j: nat, k: nat)
    requires j < 8 && k < 8
    ensures Has(Without(x, j), k) <==> j != k && Has(x, k)
  {}

  predicate Bit(b: BitBlock, i: nat)
    requires i < BPB
  {
    Has(b[i / 8], i % 8)
  }

  function SetBit(b: BitBlock, i: nat): (r: BitBlock)
    requires i < BPB
  {
    b[i / 8 := With(b[i / 8], i % 8)]
  }

  function ClearBit(b: BitBlock, i: nat): (r: BitBlock)
    requires i < BPB
  {
    b[i / 8 := Without(b[i / 8], i % 8)]
  }

  /** Setting a bit changes that bit only. */
  lemma BitOfSet(b: BitBlock, i: nat, j: nat)
    requires i < BPB && j < BPB
    ensures Bit(SetBit(b, i), j) <==> j == i || Bit(b, j)
  {
    hide Has, With;
    SameBit(i, j);
    HasWith(b[i / 8], i % 8, j % 8);
  }

  lemma BitOfClear(b: BitBlock, i: nat, j: nat)
    requires i < BPB && j < BPB
    ensures Bit(ClearBit(b, i), j) <==> j != i && Bit(b, j)
  {
    hide Has, Without;
    SameBit(i, j);
    HasWithout(b[i / 8], i % 8, j % 8);
  }

  lemma SameBit(i: nat, j: nat)
    ensures i / 8 == j / 8 && i % 8 == j % 8 <==> i == j
  {}

  // ---------------------------------------------------------------- words

  function Word(b: Block, j: nat): (w: nat)
    requires j < NINDIRECT
  {
    b[4 * j] as nat + 0x100 * (b[4 * j + 1] as nat) + 0x1_0000 * (b[4 * j + 2] as nat) +
      0x100_0000 * (b[4 * j + 3] as nat)
  }

  function SetWord(b: Block, j: nat, w: nat): (r: Block)
    requires j < NINDIRECT && w < 0x1_0000_0000
  {
    b[4 * j := (w % 0x100) as byte][4 * j + 1 := (w / 0x100 % 0x100) as byte][4 * j +
      2 := (w / 0x1_0000 % 0x100) as byte][4 * j + 3 := (w / 0x100_0000) as byte]
  }

  /** Storing a word changes that word only. */
  lemma WordOfSet(b: Block, j: nat, w: nat, k: nat)
    requires j < NINDIRECT && k < NINDIRECT && w < 0x1_0000_0000
    ensures Word(SetWord(b, j, w), k) == if k == j then w else Word(b, k)
  {
    var r := SetWord(b, j, w);
    if k == j {
      Digits(w);
    }
  }

  lemma Digits(w: nat)
    ensures w == w % 0x100 + 0x100 * (w / 0x100 % 0x100) + 0x1_0000 * (w / 0x1_0000 % 0x100) +
      0x100_0000 * (w / 0x100_0000)
  {
    assert w / 0x100 / 0x100 == w / 0x1_0000 && w / 0x1_0000 / 0x100 == w / 0x100_0000;
  }

  function ZeroBlock(): (b: Block)
    ensures forall i :: 0 <= i < 1024 ==> b[i] == 0
  {
    seq(1024, i => 0)
  }

  lemma ZeroWords(j: nat)
    requires j < NINDIRECT
    ensures Word(ZeroBlock(), j) == 0
  {}
}
