/**
 Models code/daemon/src/crc32.c: the table-driven CRC-32 of the wire frame.

 The reference is the bit-serial register of IEEE 802.3 (reflected form): one message bit at a
 time, least significant bit of each byte first.  The table-driven loop is proved equal to it.
 */
module Crc32 {
  import opened Iteration

  // ---------------------------------------------------------------- reference

  /** One clock of the shift register: the message bit is added to the bit shifted out. */
  function FeedBit(c: bv32, bit: bool): bv32 {
    if (c & 1 == 1) != bit then (c >> 1) ^ 0xEDB88320 else c >> 1
  }

  function Half(x: bv32): bv32 { x >> 1 }

  function Widen(b: bv8): bv32 { b as bv32 }

  /** Bit k of a byte. */
  predicate BitOf(b: bv8, k: nat) { Iterate(Half, Widen(b), k) & 1 == 1 }

  /** The bits of a byte in transmission order, least significant first. */
  function BitsOf(b: bv8): seq<bool> { seq(8, k requires 0 <= k => BitOf(b, k)) }

  function MessageBits(data: seq<bv8>): seq<bool> {
    if |data| == 0 then [] else MessageBits(data[..|data| - 1]) + BitsOf(data[|data| - 1])
  }

  function Complement(x: bv32): bv32 { x ^ 0xFFFFFFFF }

  /** The frame check sequence: register preset to ones, result complemented. */
  function BitSerialCrc(data: seq<bv8>): bv32 {
    Complement(Fold(FeedBit, 0xFFFFFFFF, MessageBits(data)))
  }

  // ---------------------------------------------------------------- byte-wise form

  /** The inner step of build_table. */
  function ShiftBit(c: bv32): bv32 {
    if c & 1 == 1 then 0xEDB88320 ^ (c >> 1) else c >> 1
  }

  function Xor(x: bv32, y: bv32): bv32 { x ^ y }

  function Shift(c: bv32, n: nat): bv32 { Iterate(ShiftBit, c, n) }

  /** One byte folded into the register. */
  function FeedByte(c: bv32, b: bv8): bv32 { Shift(Xor(c, Widen(b)), 8) }

  function FeedBytes(c: bv32, data: seq<bv8>): bv32 { Fold(FeedByte, c, data) }

  // ---------------------------------------------------------------- linearity and injectivity

  lemma XorFacts(x: bv32, y: bv32)
    ensures (x ^ y) >> 1 == (x >> 1) ^ (y >> 1)
    ensures (x ^ y) & 1 == (x & 1) ^ (y & 1)
    ensures x & 1 == 0 || x & 1 == 1
    ensures y & 1 == 0 || y & 1 == 1
  {}

  lemma XorCancel(p: bv32, x: bv32, y: bv32)
    ensures (p ^ x) ^ (p ^ y) == x ^ y
    ensures (p ^ x) ^ y == p ^ (x ^ y)
    ensures x ^ (p ^ y) == p ^ (x ^ y)
  {}

  lemma ShiftBitLinear(x: bv32, y: bv32)
    ensures ShiftBit(Xor(x, y)) == Xor(ShiftBit(x), ShiftBit(y))
  {
    XorFacts(x, y);
    XorCancel(0xEDB88320, x >> 1, y >> 1);
  }

  lemma ShiftLinear(x: bv32, y: bv32, n: nat)
    ensures Shift(Xor(x, y), n) == Xor(Shift(x, n), Shift(y, n))
  {
    forall a, b ensures ShiftBit(Xor(a, b)) == Xor(ShiftBit(a), ShiftBit(b)) { ShiftBitLinear(a, b); }
    IterateHomomorphic(ShiftBit, Xor, x, y, n);
  }

  lemma ShiftBitInjective(x: bv32, y: bv32)
    requires ShiftBit(x) == ShiftBit(y)
    ensures x == y
  {}

  lemma ShiftInjective(x: bv32, y: bv32, n: nat)
    requires Shift(x, n) == Shift(y, n)
    ensures x == y
  {
    forall a, b | ShiftBit(a) == ShiftBit(b) ensures a == b { ShiftBitInjective(a, b); }
    IterateInjective(ShiftBit, x, y, n);
  }

  /** The inverse of one register step: the feedback polynomial's top bit tells what was shifted out. */
  function UnshiftBit(c: bv32): bv32 {
    if c & 0x80000000 == 0x80000000 then ((c ^ 0xEDB88320) << 1) | 1 else c << 1
  }

  lemma UnshiftHigh(c: bv32)
    requires c & 0x80000000 == 0x80000000
    ensures (((c ^ 0xEDB88320) << 1) | 1) & 1 == 1
    ensures 0xEDB88320 ^ ((((c ^ 0xEDB88320) << 1) | 1) >> 1) == c
  {}

  lemma UnshiftLow(c: bv32)
    requires c & 0x80000000 != 0x80000000
    ensures (c << 1) & 1 == 0 && (c << 1) >> 1 == c
  {}

  lemma UnshiftInverts(c: bv32)
    ensures ShiftBit(UnshiftBit(c)) == c
  {
    if c & 0x80000000 == 0x80000000 {
      UnshiftHigh(c);
    } else {
      UnshiftLow(c);
    }
  }

  lemma XorTwice(x: bv32, y: bv32)
    ensures Xor(Xor(x, y), y) == x
  {}

  function UnfeedByte(c: bv32, b: bv8): bv32 { Xor(Iterate(UnshiftBit, c, 8), Widen(b)) }

  /** For every byte the state update is a bijection of the 32-bit register, with UnfeedByte its inverse. */
  lemma FeedByteBijective(x: bv32, b: bv8)
    ensures FeedByte(UnfeedByte(x, b), b) == x
    ensures UnfeedByte(FeedByte(x, b), b) == x
  {
    FeedAfterUnfeed(x, b);
    FeedAfterUnfeed(FeedByte(x, b), b);
    FeedByteInjective(UnfeedByte(FeedByte(x, b), b), x, b);
  }

  lemma FeedAfterUnfeed(z: bv32, b: bv8)
    ensures FeedByte(UnfeedByte(z, b), b) == z
  {
    forall a ensures ShiftBit(UnshiftBit(a)) == a { UnshiftInverts(a); }
    IterateInverse(ShiftBit, UnshiftBit, z, 8);
    XorTwice(Iterate(UnshiftBit, z, 8), Widen(b));
  }

  lemma FeedByteInjective(x: bv32, y: bv32, b: bv8)
    requires FeedByte(x, b) == FeedByte(y, b)
    ensures x == y
  {
    ShiftInjective(Xor(x, Widen(b)), Xor(y, Widen(b)), 8);
    XorTwice(x, Widen(b));
    XorTwice(y, Widen(b));
  }

  // ---------------------------------------------------------------- byte-wise form = bit-serial form

  /** A serial step on c with the low bit of x is a free step on c ^ x, seen through the rest of x. */
  lemma SerialStep(c: bv32, x: bv32)
    ensures Xor(FeedBit(c, x & 1 == 1), Half(x)) == ShiftBit(Xor(c, x))
  {
    XorFacts(c, x);
    XorCancel(0xEDB88320, c >> 1, x >> 1);
  }

  lemma ByteHasEightBits(b: bv8)
    ensures Iterate(Half, Widen(b), 8) == 0
  {}

  lemma {:induction false} SerialSteps(c: bv32, b: bv8, k: nat)
    requires k <= 8
    ensures Xor(Fold(FeedBit, c, BitsOf(b)[..k]), Iterate(Half, Widen(b), k)) == Shift(Xor(c, Widen(b)), k)
  {
    if k > 0 {
      SerialSteps(c, b, k - 1);
      assert BitsOf(b)[..k][..k - 1] == BitsOf(b)[..k - 1];
      SerialStep(Fold(FeedBit, c, BitsOf(b)[..k - 1]), Iterate(Half, Widen(b), k - 1));
    }
  }

  lemma ByteIsEightBits(c: bv32, b: bv8)
    ensures Fold(FeedBit, c, BitsOf(b)) == FeedByte(c, b)
  {
    SerialSteps(c, b, 8);
    ByteHasEightBits(b);
    assert BitsOf(b)[..8] == BitsOf(b);
    XorZero(Fold(FeedBit, c, BitsOf(b)));
  }

  lemma XorZero(x: bv32)
    ensures Xor(x, 0) == x
  {}

  lemma {:induction false} BytesAreBits(c: bv32, data: seq<bv8>)
    ensures FeedBytes(c, data) == Fold(FeedBit, c, MessageBits(data))
  {
    if |data| > 0 {
      var init := data[..|data| - 1];
      BytesAreBits(c, init);
      ByteIsEightBits(FeedBytes(c, init), data[|data| - 1]);
      FoldAppend(FeedBit, c, MessageBits(init), BitsOf(data[|data| - 1]));
    }
  }

  /** A register whose low byte is zero only moves right. */
  lemma ShiftHigh(x: bv32)
    requires x & 0xFF == 0
    ensures Shift(x, 8) == x >> 8
  {}

  lemma SplitLowByte(c: bv32, x: bv32)
    requires x < 256
    ensures (c ^ x) == Xor((c ^ x) & 0xFF, (c ^ x) & 0xFFFFFF00)
    ensures (c ^ x) & 0xFFFFFF00 & 0xFF == 0
    ensures ((c ^ x) & 0xFFFFFF00) >> 8 == c >> 8
  {}

  /** What one table lookup has to contribute. */
  lemma TableStep(c: bv32, b: bv8)
    ensures FeedByte(c, b) == Xor(Shift(Xor(c, Widen(b)) & 0xFF, 8), c >> 8)
  {
    var x := Xor(c, Widen(b));
    SplitLowByte(c, Widen(b));
    ShiftLinear(x & 0xFF, x & 0xFFFFFF00, 8);
    ShiftHigh(x & 0xFFFFFF00);
  }

  lemma IndexRoundTrip(k: bv32)
    requires k < 256
    ensures (k as nat) < 256 && (k as nat) as bv32 == k
  {}

  lemma LowByteBound(x: bv32)
    ensures x & 0xFF < 256
  {}

  /** The 256-entry table as far as it is filled. */
  predicate TableFilled(t: seq<bv32>, n: nat) {
    n <= |t| && n <= 256 && forall k: nat :: k < n ==> t[k] == Shift(k as bv32, 8)
  }

  lemma TableLookup(t: seq<bv32>, c: bv32, b: bv8)
    requires TableFilled(t, 256)
    ensures (Xor(c, Widen(b)) & 0xFF) as nat < 256
    ensures t[(Xor(c, Widen(b)) & 0xFF) as nat] ^ (c >> 8) == FeedByte(c, b)
  {
    TableStep(c, b);
    LowByteBound(Xor(c, Widen(b)));
    IndexRoundTrip(Xor(c, Widen(b)) & 0xFF);
  }

  /** The file-static table of crc32.c with its lazy-initialisation flag. */
  class Engine {
    const table: array<bv32>
    var initialized: bool

    ghost predicate Valid()
      reads this, table
    {
      table.Length == 256 && (initialized ==> TableFilled(table[..], 256))
    }

    constructor ()
      ensures Valid() && fresh(table)
    {
      table := new bv32[256];
      initialized := false;
    }

    method BuildTable()
      requires table.Length == 256
      modifies this`initialized, table
      ensures Valid() && initialized
    {
      for i := 0 to 256
        invariant TableFilled(table[..], i)
      {
        var c := i as bv32;
        for j := 0 to 8
          invariant c == Shift(i as bv32, j)
        {
          c := if c & 1 == 1 then 0xEDB88320 ^ (c >> 1) else c >> 1;
        }
        table[i] := c;
      }
      initialized := true;
    }

    /** One turn of the loop of crc32_ieee. */
    method Update(crc: bv32, b: bv8) returns (r: bv32)
      requires Valid() && initialized
      ensures r == FeedByte(crc, b)
    {
      TableLookup(table[..], crc, b);
      r := table[(Xor(crc, Widen(b)) & 0xFF) as nat] ^ (crc >> 8);
    }

    /** crc32_ieee: equal to the bit-serial CRC of IEEE 802.3 for every byte string. */
    method Compute(data: seq<bv8>) returns (crc: bv32)
      requires Valid()
      modifies this`initialized, table
      ensures Valid()
      ensures crc == BitSerialCrc(data)
    {
      if !initialized {
        BuildTable();
      }
      crc := 0xFFFFFFFF;
      for i := 0 to |data|
        invariant Valid() && initialized
        invariant crc == FeedBytes(0xFFFFFFFF, data[..i])
      {
        crc := Update(crc, data[i]);
        assert data[..i + 1][..i] == data[..i];
      }
      assert data[..|data|] == data;
      BytesAreBits(0xFFFFFFFF, data);
      crc := crc ^ 0xFFFFFFFF;
    }
  }
}
