/**
 Which changes within four consecutive bytes of a frame proto_decode accepts: exactly some of those that
 straddle an edge of the CRC field at bytes 50-53.
 */
module FrameWindows {
  import opened Crc32
  import opened CrcDetection
  import opened CrcWindows
  import opened Codec

  /** The four bytes from i on lie partly inside and partly outside the CRC field. */
  predicate Straddles(i: nat) { 47 <= i < 50 || 51 <= i < 54 }

  /** The windows in which some change goes unnoticed. */
  predicate Blind(v: Version, i: nat) {
    if v.V1? then i == 47 || i == 49 || i == 51 else i == 48 || i == 51
  }

  // ---------------------------------------------------------------- a change p at bytes i to i + 3

  /** What it does to the CRC field. */
  function FieldChange(i: nat, p: seq<bv8>): (d: seq<bv8>)
    requires Straddles(i) && |p| == 4
    ensures |d| == 4
  {
    if i < 50 then p[50 - i..] + Zeros(50 - i) else Zeros(i - 50) + p[..54 - i]
  }

  /** What it does to the rest. */
  function BodyChange(i: nat, p: seq<bv8>): (w: seq<bv8>)
    requires Straddles(i) && |p| == 4
    ensures |w| == if i < 50 then 50 - i else i - 50
  {
    if i < 50 then p[..50 - i] else p[54 - i..]
  }

  function BodyStart(i: nat): nat { if i < 50 then i else 54 }

  /** The change of the CRC field is the one the rest calls for. */
  predicate Absorbed(v: Version, i: nat, p: seq<bv8>)
    requires Straddles(i) && |p| == 4
  {
    U32(FieldChange(i, p)) == Shift(Pack(BodyChange(i, p)), 8 * (v.Size() - BodyStart(i)))
  }

  lemma U32Xor(a: seq<bv8>, b: seq<bv8>)
    requires |a| == |b| == 4
    ensures Xor(U32(a), U32(b)) == U32(XorBytes(a, b))
  {}

  lemma SameOutside(f: seq<bv8>, g: seq<bv8>, i: nat, k: nat, j: nat)
    requires AgreeOutside(f, g, i, k) && j < |f| && !(i <= j < i + k)
    ensures f[j] == g[j] && f[j] ^ g[j] == 0
  {
    if j < i {
      assert f[j] == f[..i][j] && g[j] == g[..i][j];
    } else {
      assert f[j] == f[i + k..][j - i - k] && g[j] == g[i + k..][j - i - k];
    }
  }

  lemma XorSlice(f: seq<bv8>, g: seq<bv8>, a: nat, b: nat, k: nat)
    requires |f| == |g| && a <= b <= |f| && k < b - a
    ensures XorBytes(f[a..b], g[a..b])[k] == f[a + k] ^ g[a + k]
  {}

  lemma StoredChange(f: seq<bv8>, g: seq<bv8>, i: nat)
    requires |f| >= 58 && Straddles(i) && AgreeOutside(f, g, i, 4)
    ensures XorBytes(f[50..54], g[50..54]) == FieldChange(i, XorBytes(f[i..i + 4], g[i..i + 4]))
  {
    var p := XorBytes(f[i..i + 4], g[i..i + 4]);
    forall k | 0 <= k < 4
      ensures XorBytes(f[50..54], g[50..54])[k] == FieldChange(i, p)[k]
    {
      XorSlice(f, g, 50, 54, k);
      if i <= 50 + k < i + 4 {
        XorSlice(f, g, i, i + 4, 50 + k - i);
        assert FieldChange(i, p)[k] == p[50 + k - i];
      } else {
        SameOutside(f, g, i, 4, 50 + k);
        assert FieldChange(i, p)[k] == 0;
      }
    }
  }

  lemma BlankAt(f: seq<bv8>, j: nat)
    requires 54 <= |f| && j < |f|
    ensures Blank(f)[j] == if 50 <= j < 54 then 0 else f[j]
  {}

  lemma BlankAgree(f: seq<bv8>, g: seq<bv8>, i: nat, s: nat, n: nat)
    requires |f| >= 58 && Straddles(i) && AgreeOutside(f, g, i, 4)
    requires s == BodyStart(i) && n == if i < 50 then 50 - i else i - 50
    ensures AgreeOutside(Blank(f), Blank(g), s, n)
  {
    forall j | 0 <= j < |f| && !(s <= j < s + n)
      ensures Blank(f)[j] == Blank(g)[j]
    {
      BlankAt(f, j);
      BlankAt(g, j);
      if !(50 <= j < 54) {
        SameOutside(f, g, i, 4, j);
      }
    }
    assert Blank(f)[..s] == Blank(g)[..s];
    assert Blank(f)[s + n..] == Blank(g)[s + n..];
  }

  lemma BlankChange(f: seq<bv8>, g: seq<bv8>, i: nat, s: nat, n: nat)
    requires |f| == |g| >= 58 && Straddles(i)
    requires s == BodyStart(i) && n == if i < 50 then 50 - i else i - 50
    ensures XorBytes(Blank(f)[s..s + n], Blank(g)[s..s + n]) == BodyChange(i, XorBytes(f[i..i + 4], g[i..i + 4]))
  {
    var p := XorBytes(f[i..i + 4], g[i..i + 4]);
    forall k | 0 <= k < n
      ensures XorBytes(Blank(f)[s..s + n], Blank(g)[s..s + n])[k] == BodyChange(i, p)[k]
    {
      XorSlice(Blank(f), Blank(g), s, s + n, k);
      BlankAt(f, s + k);
      BlankAt(g, s + k);
      XorSlice(f, g, i, i + 4, s + k - i);
      assert BodyChange(i, p)[k] == p[s + k - i];
    }
  }

  /** The CRC difference that the change of the body causes. */
  lemma BodySyndrome(f: seq<bv8>, g: seq<bv8>, i: nat)
    requires |f| >= 58 && Straddles(i) && AgreeOutside(f, g, i, 4)
    ensures FeedBytes(0, XorBytes(Blank(f), Blank(g)))
         == Shift(Pack(BodyChange(i, XorBytes(f[i..i + 4], g[i..i + 4]))), 8 * (|f| - BodyStart(i)))
  {
    var s, n := BodyStart(i), if i < 50 then 50 - i else i - 50;
    BlankAgree(f, g, i, s, n);
    BlankChange(f, g, i, s, n);
    WindowSyndrome(Blank(f), Blank(g), s, n);
    CrcDifference(Blank(f), Blank(g));
  }

  lemma SameHeader(f: seq<bv8>, g: seq<bv8>, i: nat)
    requires |f| >= 58 && Straddles(i) && AgreeOutside(f, g, i, 4)
    ensures f[..4] == g[..4] && f[4] == g[4]
  {
    assert f[..4] == f[..i][..4] && g[..4] == g[..i][..4];
    SameOutside(f, g, i, 4, 4);
  }

  /** A straddling change passes exactly if it is absorbed. */
  lemma StraddlingAcceptedIff(f: seq<bv8>, g: seq<bv8>, v: Version, i: nat)
    requires |f| == v.Size() && Decode(f, v).Accepted? && Straddles(i) && AgreeOutside(f, g, i, 4)
    ensures Decode(g, v).Accepted? <==> Absorbed(v, i, XorBytes(f[i..i + 4], g[i..i + 4]))
  {
    StoredChange(f, g, i);
    U32Xor(f[50..54], g[50..54]);
    BodySyndrome(f, g, i);
    SameHeader(f, g, i);
    AlteredAcceptedIff(f, g, v);
  }

  // ---------------------------------------------------------------- windows in which every change is noticed

  lemma FieldTop(x: bv8, y: bv8, z: bv8)
    ensures U32([x, y, z, 0]) & 0xFF == 0 && U32([x, y, 0, 0]) & 0xFFFF == 0 && U32([x, 0, 0, 0]) == Place(x, 3)
  {}

  lemma FieldEnd(x: bv8, y: bv8)
    ensures U32([0, 0, x, y]) < 0x10000 && U32([0, 0, 0, y]) == Place(y, 0)
  {}

  lemma PackShapes(x: bv8, y: bv8)
    ensures Pack([x]) == Place(x, 0) && Pack([x, y]) == Xor(Place(x, 0), Place(y, 1))
  {
    assert [x][..0] == [] && [x, y][..1] == [x];
    XorLaws(Place(x, 0), 0, 0);
  }

  lemma {:induction false} PackZeros(n: nat)
    requires n <= 4
    ensures Pack(Zeros(n)) == 0
  {
    if n > 0 {
      PackZeros(n - 1);
      assert Zeros(n)[..n - 1] == Zeros(n - 1);
    }
  }

  lemma ZeroField(d: seq<bv8>)
    requires |d| == 4
    ensures U32(d) == 0 <==> d == Zeros(4)
  {
    U32RoundTrip(d);
    U32RoundTrip(Zeros(4));
  }

  lemma PartsZero(i: nat, p: seq<bv8>)
    requires Straddles(i) && |p| == 4
    requires FieldChange(i, p) == Zeros(4) && BodyChange(i, p) == Zeros(|BodyChange(i, p)|)
    ensures p == Zeros(4)
  {
    forall k | 0 <= k < 4
      ensures p[k] == 0
    {
      if 50 <= i + k < 54 {
        assert p[k] == FieldChange(i, p)[i + k - 50];
      } else {
        assert p[k] == BodyChange(i, p)[i + k - BodyStart(i)];
      }
    }
  }

  /** If one part of an absorbed change is nothing, so is the other. */
  lemma OneQuietPart(v: Version, i: nat, p: seq<bv8>)
    requires Straddles(i) && |p| == 4 && Absorbed(v, i, p)
    requires FieldChange(i, p) == Zeros(4) || BodyChange(i, p) == Zeros(|BodyChange(i, p)|)
    ensures p == Zeros(4)
  {
    var d, w, n := FieldChange(i, p), BodyChange(i, p), 8 * (v.Size() - BodyStart(i));
    ShiftZero(n);
    ZeroField(d);
    PackZeros(|w|);
    if d == Zeros(4) {
      ShiftInjective(Pack(w), 0, n);
      PackNonzero(w);
    }
    PartsZero(i, p);
  }

  lemma Window47(p: seq<bv8>)
    requires |p| == 4 && Absorbed(V2, 47, p)
    ensures p == Zeros(4)
  {
    var x := Pack(BodyChange(47, p));
    PackNonzero(BodyChange(47, p));
    assert FieldChange(47, p) == [p[3], 0, 0, 0];
    FieldTop(p[3], 0, 0);
    UnshiftedPlace(x, p[3], 3, 17);
    OneByteReaches0(p[3]);
    assert FieldChange(47, p) == Zeros(4);
    OneQuietPart(V2, 47, p);
  }

  lemma Window53(v: Version, p: seq<bv8>)
    requires |p| == 4 && Absorbed(v, 53, p)
    ensures p == Zeros(4)
  {
    var x := Pack(BodyChange(53, p));
    PackNonzero(BodyChange(53, p));
    assert FieldChange(53, p) == [0, 0, 0, p[0]];
    FieldEnd(0, p[0]);
    UnshiftedPlace(x, p[0], 0, v.Size() - 54);
    if v.V1? {
      OneByteReaches8(p[0]);
    } else {
      OneByteReaches10(p[0]);
    }
    assert FieldChange(53, p) == Zeros(4);
    OneQuietPart(v, 53, p);
  }

  lemma Window49(p: seq<bv8>)
    requires |p| == 4 && Absorbed(V2, 49, p)
    ensures p == Zeros(4)
  {
    assert BodyChange(49, p) == [p[0]] && FieldChange(49, p) == [p[1], p[2], p[3], 0];
    PackShapes(p[0], 0);
    FieldTop(p[1], p[2], p[3]);
    ShiftedPlace(p[0], 0, 15);
    OneByteReaches35(p[0]);
    assert BodyChange(49, p) == Zeros(1);
    OneQuietPart(V2, 49, p);
  }

  /** Two body bytes, n bytes from the end. */
  lemma TwoBytesShifted(x: bv8, y: bv8, n: nat)
    ensures Shift(Pack([x, y]), 8 * n) == Xor(Scale(x, Power(20 + n)), Scale(y, Power(19 + n)))
  {
    PackShapes(x, y);
    ShiftLinear(Place(x, 0), Place(y, 1), 8 * n);
    ShiftedPlace(x, 0, n);
    ShiftedPlace(y, 1, n);
  }

  lemma TwoBytes18(x: bv8, y: bv8, d: bv32)
    requires d == Shift(Pack([x, y]), 144) && d & 0xFFFF == 0
    ensures x == 0 && y == 0
  {
    TwoBytesShifted(x, y, 18);
    TwoBytesReach38(x, y, d);
  }

  lemma Window48(p: seq<bv8>)
    requires |p| == 4 && Absorbed(V1, 48, p)
    ensures p == Zeros(4)
  {
    assert BodyChange(48, p) == [p[0], p[1]] && FieldChange(48, p) == [p[2], p[3], 0, 0];
    FieldTop(p[2], p[3], 0);
    TwoBytes18(p[0], p[1], U32(FieldChange(48, p)));
    assert BodyChange(48, p) == Zeros(2);
    OneQuietPart(V1, 48, p);
  }

  lemma Window52(v: Version, p: seq<bv8>)
    requires |p| == 4 && Absorbed(v, 52, p)
    ensures p == Zeros(4)
  {
    assert BodyChange(52, p) == [p[2], p[3]] && FieldChange(52, p) == [0, 0, p[0], p[1]];
    FieldEnd(p[0], p[1]);
    TwoBytesShifted(p[2], p[3], v.Size() - 54);
    if v.V1? {
      TwoBytesReach32(p[2], p[3]);
    } else {
      TwoBytesReach30(p[2], p[3]);
    }
    assert BodyChange(52, p) == Zeros(2);
    OneQuietPart(v, 52, p);
  }

  lemma NothingAbsorbed(v: Version, i: nat, p: seq<bv8>)
    requires Straddles(i) && !Blind(v, i) && |p| == 4 && Absorbed(v, i, p)
    ensures p == Zeros(4)
  {
    match i
    case 47 => Window47(p);
    case 48 => Window48(p);
    case 49 => Window49(p);
    case 52 => Window52(v, p);
    case 53 => Window53(v, p);
  }

  // ---------------------------------------------------------------- windows in which some change is absorbed

  function Pattern(v: Version, i: nat): (p: seq<bv8>)
    requires Blind(v, i)
    ensures |p| == 4 && p[0] != 0
  {
    if i == 47 then [0x1D, 0xAD, 0x1D, 0x21]
    else if i == 48 then [0x08, 0x10, 0x37, 0x71]
    else if i == 49 then [0xAD, 0x86, 0x91, 0x5A]
    else if v.V1? then [0x76, 0xB0, 0x6B, 0xB7]
    else [0x2C, 0xC2, 0x45, 0x85]
  }

  lemma OneByteShifted(x: bv8, n: nat)
    ensures Shift(Pack([x]), 8 * n) == Scale(x, Power(20 + n))
  {
    PackShapes(x, 0);
    ShiftedPlace(x, 0, n);
  }

  lemma ThreeBytesShifted(x: bv8, y: bv8, z: bv8, n: nat)
    ensures Shift(Pack([x, y, z]), 8 * n)
         == Xor(Xor(Scale(x, Power(20 + n)), Scale(y, Power(19 + n))), Scale(z, Power(18 + n)))
  {
    assert [x, y, z][..2] == [x, y];
    ShiftLinear(Pack([x, y]), Place(z, 2), 8 * n);
    TwoBytesShifted(x, y, n);
    ShiftedPlace(z, 2, n);
  }

  lemma Absorbed47()
    ensures Absorbed(V1, 47, Pattern(V1, 47))
  {
    var p := Pattern(V1, 47);
    assert BodyChange(47, p) == [0x1D, 0xAD, 0x1D] && FieldChange(47, p) == [0x21, 0, 0, 0];
    ThreeBytesShifted(0x1D, 0xAD, 0x1D, 19);
    Orbit39();
  }

  lemma Absorbed48()
    ensures Absorbed(V2, 48, Pattern(V2, 48))
  {
    var p := Pattern(V2, 48);
    assert BodyChange(48, p) == [0x08, 0x10] && FieldChange(48, p) == [0x37, 0x71, 0, 0];
    TwoBytesShifted(0x08, 0x10, 16);
    Orbit36();
  }

  lemma Absorbed49()
    ensures Absorbed(V1, 49, Pattern(V1, 49))
  {
    var p := Pattern(V1, 49);
    assert BodyChange(49, p) == [0xAD] && FieldChange(49, p) == [0x86, 0x91, 0x5A, 0];
    OneByteShifted(0xAD, 17);
    Orbit39();
  }

  lemma Absorbed51(v: Version)
    ensures Absorbed(v, 51, Pattern(v, 51))
  {
    var p := Pattern(v, 51);
    assert BodyChange(51, p) == [p[3]] && FieldChange(51, p) == [0, p[0], p[1], p[2]];
    OneByteShifted(p[3], v.Size() - 54);
    Orbit32();
  }

  lemma PatternAbsorbed(v: Version, i: nat)
    requires Blind(v, i)
    ensures Absorbed(v, i, Pattern(v, i))
  {
    match i
    case 47 => Absorbed47();
    case 48 => Absorbed48();
    case 49 => Absorbed49();
    case 51 => Absorbed51(v);
  }

  function Altered(f: seq<bv8>, i: nat, p: seq<bv8>): (g: seq<bv8>)
    requires |p| == 4 && i + 4 <= |f|
    ensures |g| == |f|
  {
    f[..i] + XorBytes(f[i..i + 4], p) + f[i + 4..]
  }

  lemma XorTwice(x: bv8, y: bv8)
    ensures x ^ (x ^ y) == y
  {}

  lemma AlteredBy(f: seq<bv8>, i: nat, p: seq<bv8>)
    requires |p| == 4 && i + 4 <= |f|
    ensures AgreeOutside(f, Altered(f, i, p), i, 4)
    ensures XorBytes(f[i..i + 4], Altered(f, i, p)[i..i + 4]) == p
  {
    var g := Altered(f, i, p);
    assert g[..i] == f[..i] && g[i + 4..] == f[i + 4..];
    assert g[i..i + 4] == XorBytes(f[i..i + 4], p);
    forall k | 0 <= k < 4
      ensures XorBytes(f[i..i + 4], g[i..i + 4])[k] == p[k]
    {
      XorTwice(f[i..i + 4][k], p[k]);
    }
  }

  lemma SameGivesZeros(a: seq<bv8>)
    ensures XorBytes(a, a) == Zeros(|a|)
  {
    forall k | 0 <= k < |a|
      ensures XorBytes(a, a)[k] == 0
    {
      XorTwice(a[k], 0);
    }
  }

  /** In a blind window every accepted frame has a different accepted frame. */
  lemma StraddlingChangeAccepted(f: seq<bv8>, v: Version, i: nat)
    requires |f| == v.Size() && Decode(f, v).Accepted? && Blind(v, i)
    ensures var g := Altered(f, i, Pattern(v, i)); g != f && AgreeOutside(f, g, i, 4) && Decode(g, v).Accepted?
  {
    var g := Altered(f, i, Pattern(v, i));
    AlteredBy(f, i, Pattern(v, i));
    PatternAbsorbed(v, i);
    StraddlingAcceptedIff(f, g, v, i);
    SameGivesZeros(f[i..i + 4]);
    assert Zeros(4)[0] == 0;
  }

  // ---------------------------------------------------------------- the exact set of windows

  lemma WiderWindow(f: seq<bv8>, g: seq<bv8>, i: nat, k: nat, j: nat)
    requires AgreeOutside(f, g, i, k) && j <= i && i + k <= j + 4 <= |f|
    ensures AgreeOutside(f, g, j, 4)
  {
    assert f[..j] == f[..i][..j] && g[..j] == g[..i][..j];
    assert f[j + 4..] == f[i + k..][j + 4 - i - k..] && g[j + 4..] == g[i + k..][j + 4 - i - k..];
  }

  lemma StraddlingRejected(f: seq<bv8>, g: seq<bv8>, v: Version, i: nat)
    requires |f| == v.Size() && Decode(f, v).Accepted? && f != g
    requires Straddles(i) && !Blind(v, i) && AgreeOutside(f, g, i, 4)
    ensures Decode(g, v).Rejected?
  {
    StraddlingAcceptedIff(f, g, v, i);
    if Decode(g, v).Accepted? {
      NothingAbsorbed(v, i, XorBytes(f[i..i + 4], g[i..i + 4]));
      SameWindow(f, g, i, 4);
      assert false;
    }
  }

  /** Every change within four consecutive bytes is noticed unless it fills a blind window. */
  lemma WindowRejected(f: seq<bv8>, g: seq<bv8>, v: Version, i: nat, k: nat)
    requires |f| == v.Size() && Decode(f, v).Accepted? && f != g
    requires k <= 4 && AgreeOutside(f, g, i, k) && !(k == 4 && Blind(v, i))
    ensures Decode(g, v).Rejected?
  {
    if OffTheEdge(i, k) {
      CorruptionRejected(f, g, v, i, k);
    } else {
      var j := if k == 4 then i else if i >= 52 then 52 else if v.V1? then 48 else if i == 49 then 49 else 47;
      WiderWindow(f, g, i, k, j);
      StraddlingRejected(f, g, v, j);
    }
  }

  /**
   For every accepted frame and every window of at most four bytes: some different frame that agrees
   outside the window is accepted exactly if the window is one of the blind four-byte windows, which
   start at 48 and 51 in a 64-byte frame and at 47, 49 and 51 in a 66-byte frame.
   */
  lemma UnnoticedChangeIff(f: seq<bv8>, v: Version, i: nat, k: nat)
    requires |f| == v.Size() && Decode(f, v).Accepted? && k <= 4
    ensures (exists g :: g != f && AgreeOutside(f, g, i, k) && Decode(g, v).Accepted?) <==> k == 4 && Blind(v, i)
  {
    if k == 4 && Blind(v, i) {
      StraddlingChangeAccepted(f, v, i);
    } else {
      forall g | g != f && AgreeOutside(f, g, i, k)
        ensures Decode(g, v).Rejected?
      {
        WindowRejected(f, g, v, i, k);
      }
    }
  }
}
