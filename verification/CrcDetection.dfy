/**
 What the CRC detects.  The register is linear over exclusive-or, so the CRC difference of two
 messages of one length depends only on where and by what they differ.
 */
module CrcDetection {
  import opened Iteration
  import opened Crc32

  function XorBytes(a: seq<bv8>, b: seq<bv8>): (d: seq<bv8>)
    requires |a| == |b|
    ensures |d| == |a|
  {
    seq(|a|, i requires 0 <= i < |a| => a[i] ^ b[i])
  }

  function Zeros(n: nat): (z: seq<bv8>)
    ensures |z| == n
  {
    seq(n, _ => 0)
  }

  // ---------------------------------------------------------------- linearity of whole messages

  lemma XorLaws(c: bv32, d: bv32, x: bv32)
    ensures (c ^ d) ^ x == c ^ (d ^ x)
    ensures (c ^ 0xFFFFFFFF) ^ (d ^ 0xFFFFFFFF) == c ^ d
    ensures 0 ^ c == c
  {}

  lemma XorSemigroup()
    ensures Associative(Xor) && Commutative(Xor)
  {
    forall a, b, e ensures Xor(Xor(a, b), e) == Xor(a, Xor(b, e)) { XorAssoc(a, b, e); }
    forall a, b ensures Xor(a, b) == Xor(b, a) { XorComm(a, b); }
  }

  lemma XorExchange(op: (bv32, bv32) -> bv32, c: bv32, d: bv32, x: bv32, y: bv32)
    requires op == Xor
    ensures op(op(c, d), op(x, y)) == op(op(c, x), op(d, y))
  {
    XorSemigroup();
    Exchange(op, c, d, x, y);
  }

  lemma XorComm(x: bv32, y: bv32)
    ensures Xor(x, y) == Xor(y, x)
  {}

  lemma WidenXor(a: bv8, b: bv8)
    ensures Widen(a ^ b) == Xor(Widen(a), Widen(b))
  {}

  lemma FeedByteLinear(c: bv32, d: bv32, a: bv8, b: bv8)
    ensures FeedByte(Xor(c, d), a ^ b) == Xor(FeedByte(c, a), FeedByte(d, b))
  {
    WidenXor(a, b);
    XorExchange(Xor, c, d, Widen(a), Widen(b));
    ShiftLinear(Xor(c, Widen(a)), Xor(d, Widen(b)), 8);
  }

  lemma {:induction false} FeedBytesLinear(c: bv32, d: bv32, a: seq<bv8>, b: seq<bv8>)
    requires |a| == |b|
    ensures FeedBytes(Xor(c, d), XorBytes(a, b)) == Xor(FeedBytes(c, a), FeedBytes(d, b))
  {
    if |a| > 0 {
      var n := |a| - 1;
      FeedBytesLinear(c, d, a[..n], b[..n]);
      assert XorBytes(a, b)[..n] == XorBytes(a[..n], b[..n]);
      FeedByteLinear(FeedBytes(c, a[..n]), FeedBytes(d, b[..n]), a[n], b[n]);
    }
  }

  lemma CrcIsFeed(a: seq<bv8>)
    ensures BitSerialCrc(a) == Complement(FeedBytes(0xFFFFFFFF, a))
  {
    BytesAreBits(0xFFFFFFFF, a);
  }

  lemma CrcDifference(a: seq<bv8>, b: seq<bv8>)
    requires |a| == |b|
    ensures Xor(BitSerialCrc(a), BitSerialCrc(b)) == FeedBytes(0, XorBytes(a, b))
  {
    CrcIsFeed(a);
    CrcIsFeed(b);
    FeedBytesLinear(0xFFFFFFFF, 0xFFFFFFFF, a, b);
    XorSelf(0xFFFFFFFF);
    ComplementCancels(FeedBytes(0xFFFFFFFF, a), FeedBytes(0xFFFFFFFF, b));
  }

  lemma XorSelf(x: bv32)
    ensures Xor(x, x) == 0
  {}

  lemma ComplementCancels(x: bv32, y: bv32)
    ensures Xor(Complement(x), Complement(y)) == Xor(x, y)
  {
    XorLaws(x, y, 0);
  }

  // ---------------------------------------------------------------- zero bytes only shift

  lemma {:induction false} FeedZeros(c: bv32, n: nat)
    ensures FeedBytes(c, Zeros(n)) == Shift(c, 8 * n)
  {
    if n > 0 {
      FeedZeros(c, n - 1);
      assert Zeros(n)[..n - 1] == Zeros(n - 1);
      XorZero(FeedBytes(c, Zeros(n - 1)));
      assert Widen(0) == 0;
      IterateAdd(ShiftBit, c, 8 * (n - 1), 8);
    }
  }

  lemma ShiftZero(n: nat)
    ensures Shift(0, n) == 0
  {
    ShiftLinear(0, 0, n);
    XorSelf(0);
    XorSelf(Shift(0, n));
  }

  // ---------------------------------------------------------------- up to four bytes fill the register

  /** Byte b at byte position m of a 32-bit word. */
  function Place(b: bv8, m: nat): bv32
    requires m < 4
  {
    match m
    case 0 => Widen(b)
    case 1 => Widen(b) << 8
    case 2 => Widen(b) << 16
    case 3 => Widen(b) << 24
  }

  /** Up to four bytes as a little-endian word. */
  function Pack(w: seq<bv8>): bv32
    requires |w| <= 4
  {
    if |w| == 0 then 0 else Xor(Pack(w[..|w| - 1]), Place(w[|w| - 1], |w| - 1))
  }

  lemma PlaceFacts(x: bv32)
    requires x < 256
    ensures (x << 8) & 0xFF == 0 && (x << 8) >> 8 == x
    ensures (x << 16) & 0xFF == 0 && (x << 16) >> 8 == x << 8
    ensures (x << 24) & 0xFF == 0 && (x << 24) >> 8 == x << 16
  {}

  lemma WidenBound(b: bv8)
    ensures Widen(b) < 256
  {}

  lemma ShiftPlaceOnce(x: bv32)
    requires x < 256
    ensures Shift(x << 8, 8) == x && Shift(x << 16, 8) == x << 8 && Shift(x << 24, 8) == x << 16
  {
    PlaceFacts(x);
    ShiftHigh(x << 8);
    ShiftHigh(x << 16);
    ShiftHigh(x << 24);
  }

  lemma ShiftPlaceTwice(x: bv32)
    requires x < 256
    ensures Shift(x << 16, 16) == x && Shift(x << 24, 16) == x << 8
  {
    ShiftPlaceOnce(x);
    IterateAdd(ShiftBit, x << 16, 8, 8);
    IterateAdd(ShiftBit, x << 24, 8, 8);
  }

  lemma ShiftPlaceThrice(x: bv32)
    requires x < 256
    ensures Shift(x << 24, 24) == x
  {
    ShiftPlaceOnce(x);
    ShiftPlaceTwice(x);
    IterateAdd(ShiftBit, x << 24, 16, 8);
  }

  lemma ShiftPlace(b: bv8, m: nat)
    requires m < 4
    ensures Shift(Place(b, m), 8 * m) == Widen(b)
  {
    var x := Widen(b);
    WidenBound(b);
    if m == 1 {
      ShiftPlaceOnce(x);
    } else if m == 2 {
      ShiftPlaceTwice(x);
    } else if m == 3 {
      ShiftPlaceThrice(x);
    }
  }

  lemma XorAssoc(x: bv32, y: bv32, z: bv32)
    ensures Xor(Xor(x, y), z) == Xor(x, Xor(y, z))
  {}

  /** A window of at most four bytes acts like one word added to the register. */
  lemma {:induction false} FeedWindow(c: bv32, w: seq<bv8>)
    requires |w| <= 4
    ensures FeedBytes(c, w) == Shift(Xor(c, Pack(w)), 8 * |w|)
  {
    if |w| == 0 {
      XorZero(c);
    } else {
      var m := |w| - 1;
      var p, q := Xor(c, Pack(w[..m])), Place(w[m], m);
      FeedWindow(c, w[..m]);
      ShiftPlace(w[m], m);
      ShiftLinear(p, q, 8 * m);
      XorAssoc(c, Pack(w[..m]), q);
      IterateAdd(ShiftBit, Xor(p, q), 8 * m, 8);
    }
  }

  lemma PackTop(p: bv32, b: bv8)
    ensures p < 0x100 && Xor(p, Widen(b) << 8) == 0 ==> p == 0 && b == 0
    ensures p < 0x10000 && Xor(p, Widen(b) << 16) == 0 ==> p == 0 && b == 0
    ensures p < 0x1000000 && Xor(p, Widen(b) << 24) == 0 ==> p == 0 && b == 0
    ensures p < 0x100 ==> Xor(p, Widen(b) << 8) < 0x10000
    ensures p < 0x10000 ==> Xor(p, Widen(b) << 16) < 0x1000000
  {}

  lemma WidenZero(b: bv8)
    ensures Widen(b) == 0 ==> b == 0
    ensures Xor(0, Widen(b)) == Widen(b)
  {}

  lemma {:induction false} PackNonzero(w: seq<bv8>)
    requires |w| <= 4
    ensures Pack(w) == 0 ==> w == Zeros(|w|)
    ensures |w| == 0 ==> Pack(w) == 0
    ensures |w| == 1 ==> Pack(w) < 0x100
    ensures |w| == 2 ==> Pack(w) < 0x10000
    ensures |w| == 3 ==> Pack(w) < 0x1000000
  {
    if |w| > 0 {
      var m := |w| - 1;
      PackNonzero(w[..m]);
      PackTop(Pack(w[..m]), w[m]);
      WidenZero(w[m]);
      WidenBound(w[m]);
      assert w == w[..m] + [w[m]];
    }
  }

  // ---------------------------------------------------------------- detection

  /** The messages agree outside the k bytes from position i. */
  predicate AgreeOutside(a: seq<bv8>, b: seq<bv8>, i: nat, k: nat) {
    && |a| == |b| && i + k <= |a|
    && a[..i] == b[..i] && a[i + k..] == b[i + k..]
  }

  lemma WindowPattern(a: seq<bv8>, b: seq<bv8>, i: nat, k: nat)
    requires AgreeOutside(a, b, i, k)
    ensures XorBytes(a, b) == Zeros(i) + XorBytes(a[i..i + k], b[i..i + k]) + Zeros(|a| - i - k)
  {}

  lemma FeedPattern(i: nat, w: seq<bv8>, j: nat)
    requires |w| <= 4
    ensures FeedBytes(0, Zeros(i) + w + Zeros(j)) == Shift(Pack(w), 8 * (|w| + j))
  {
    FoldAppend(FeedByte, 0, Zeros(i) + w, Zeros(j));
    FoldAppend(FeedByte, 0, Zeros(i), w);
    FeedZeros(0, i);
    ShiftZero(8 * i);
    FeedWindow(0, w);
    XorLaws(Pack(w), 0, 0);
    FeedZeros(FeedBytes(0, w), j);
    IterateAdd(ShiftBit, Pack(w), 8 * |w|, 8 * j);
  }

  /** The CRC difference caused by a change within k <= 4 consecutive bytes. */
  lemma WindowSyndrome(a: seq<bv8>, b: seq<bv8>, i: nat, k: nat)
    requires k <= 4 && AgreeOutside(a, b, i, k)
    ensures Xor(BitSerialCrc(a), BitSerialCrc(b))
         == Shift(Pack(XorBytes(a[i..i + k], b[i..i + k])), 8 * (|a| - i))
  {
    CrcDifference(a, b);
    WindowPattern(a, b, i, k);
    FeedPattern(i, XorBytes(a[i..i + k], b[i..i + k]), |a| - i - k);
  }

  lemma XorBytesZero(a: seq<bv8>, b: seq<bv8>)
    requires |a| == |b| && XorBytes(a, b) == Zeros(|a|)
    ensures a == b
  {
    forall j | 0 <= j < |a| ensures a[j] == b[j] {
      assert XorBytes(a, b)[j] == Zeros(|a|)[j];
      ByteXorZero(a[j], b[j]);
    }
  }

  lemma ByteXorZero(x: bv8, y: bv8)
    requires x ^ y == 0
    ensures x == y
  {}

  /** Different messages of one length that differ only within four consecutive bytes have different CRCs. */
  lemma BurstDetected(a: seq<bv8>, b: seq<bv8>, i: nat, k: nat)
    requires k <= 4 && AgreeOutside(a, b, i, k)
    requires a != b
    ensures BitSerialCrc(a) != BitSerialCrc(b)
  {
    var w := XorBytes(a[i..i + k], b[i..i + k]);
    WindowSyndrome(a, b, i, k);
    if BitSerialCrc(a) == BitSerialCrc(b) {
      XorSelf(BitSerialCrc(a));
      ShiftZero(8 * (|a| - i));
      ShiftInjective(Pack(w), 0, 8 * (|a| - i));
      PackNonzero(w);
      SameWindow(a, b, i, k);
      assert false;
    }
  }

  lemma SameWindow(a: seq<bv8>, b: seq<bv8>, i: nat, k: nat)
    requires AgreeOutside(a, b, i, k)
    requires XorBytes(a[i..i + k], b[i..i + k]) == Zeros(k)
    ensures a == b
  {
    XorBytesZero(a[i..i + k], b[i..i + k]);
    assert a == a[..i] + a[i..i + k] + a[i + k..];
    assert b == b[..i] + b[i..i + k] + b[i + k..];
  }
}
