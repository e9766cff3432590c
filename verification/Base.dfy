/** Fixed-width integers, byte strings and identifiers shared by the IndexVM modules. */
module Base {
  const TWO_64 := 0x1_0000_0000_0000_0000

  type uint64 = x: int | 0 <= x < TWO_64
  type Byte = b: int | 0 <= b < 256
  type Bytes = seq<Byte>
  const ZEROS: Bytes :=
    [0, 0, 0, 0, 0, 0, 0, 0, 0, 0, 0, 0, 0, 0, 0, 0,
     0, 0, 0, 0, 0, 0, 0, 0, 0, 0, 0, 0, 0, 0, 0, 0]

  type Bytes32 = s: Bytes | |s| == 32 witness ZEROS

  /** An ed25519 public key; only its 32 bytes matter to the ledger. */
  datatype PublicKey = PublicKey(bytes: Bytes32)

  /** A 32-byte content identifier. */
  datatype ID = ID(bytes: Bytes32)

  const EMPTY_KEY := PublicKey(ZEROS)
  const EMPTY_ID := ID(ZEROS)
  const MAX_UINT8: Byte := 255

  /** Go's unchecked addition of two uint64 values. */
  function WrappingAdd(x: uint64, y: uint64): (r: uint64) {
    if x + y < TWO_64 then x + y else x + y - TWO_64
  }

  /** Bit v of b, counted from the lowest. */
  predicate BitSet(b: nat, v: nat) {
    if v == 0 then b % 2 == 1 else BitSet(b / 2, v - 1)
  }

  /** Offsets above 7 are never set in a byte. */
  predicate CheckBit(b: Byte, v: nat) {
    v <= 7 && BitSet(b, v)
  }

  function Mask(v: nat): bv8
    requires v <= 7
  {
    (1 as bv8) << v
  }

  lemma MaskValues()
    ensures Mask(0) == 1 && Mask(1) == 2 && Mask(2) == 4 && Mask(3) == 8
    ensures Mask(4) == 16 && Mask(5) == 32 && Mask(6) == 64 && Mask(7) == 128
  {}

  lemma LowestBit(b: bv8)
    ensures b as int % 2 == 1 <==> b & 1 != 0
  {}

  lemma ShiftHalves(b: bv8)
    ensures (b >> 1) as int == b as int / 2
  {}

  lemma MaskShifts(b: bv8, v: nat)
    requires 1 <= v <= 7
    ensures b & Mask(v) != 0 <==> (b >> 1) & Mask(v - 1) != 0
  {
    MaskValues();
    assert v == 1 || v == 2 || v == 3 || v == 4 || v == 5 || v == 6 || v == 7;
  }

  lemma {:induction false} BitSetIsMaskTest(b: bv8, v: nat)
    requires v <= 7
    ensures BitSet(b as int, v) <==> b & Mask(v) != 0
    decreases v
  {
    if v == 0 {
      LowestBit(b);
      MaskValues();
    } else {
      ShiftHalves(b);
      MaskShifts(b, v);
      BitSetIsMaskTest(b >> 1, v - 1);
    }
  }

  /** CheckBit is the mask test `b & (1 << v) != 0` on eight-bit words. */
  lemma CheckBitIsMaskTest(b: bv8, v: nat)
    requires v <= 7
    ensures CheckBit(b as int, v) <==> b & Mask(v) != 0
  {
    BitSetIsMaskTest(b, v);
  }

  lemma {:induction false} NoBitOfZero(v: nat)
    ensures !BitSet(0, v)
  {
    if v > 0 {
      NoBitOfZero(v - 1);
    }
  }

  lemma CheckBitExtremes(v: nat)
    ensures !CheckBit(0, v)
    ensures v <= 7 ==> CheckBit(MAX_UINT8, v)
  {
    NoBitOfZero(v);
    BitsOf255();
    assert v <= 7 ==> v == 0 || v == 1 || v == 2 || v == 3 || v == 4 || v == 5 || v == 6 || v == 7;
  }

  lemma BitsOf255()
    ensures BitSet(255, 0) && BitSet(255, 1) && BitSet(255, 2) && BitSet(255, 3)
    ensures BitSet(255, 4) && BitSet(255, 5) && BitSet(255, 6) && BitSet(255, 7)
  {}
}
