/**
 Models code/daemon/src/proto_v2.c: the fixed wire frame, big-endian fields, CRC at bytes 50-53.
 Times are carried as their 64-bit two's-complement pattern.
 */
module Codec {
  import opened Crc32
  import opened CrcDetection

  /** The two build-time frame formats. */
  datatype Version = V1 | V2 {
    function Size(): nat { if V1? then 66 else 64 }
    function Tag(): bv8 { if V1? then 1 else 2 }
  }

  datatype Packet = Packet(msgType: bv8, flags: bv8, seqNo: bv16, nodeId: bv32, term: bv32,
                           t1: bv64, t2: bv64, t3: bv64, t4: bv64)

  datatype Decoded = Accepted(packet: Packet) | Rejected

  // ---------------------------------------------------------------- network byte order

  function Be16(x: bv16): (s: seq<bv8>)
    ensures |s| == 2
  {
    [((x >> 8) & 0xFF) as bv8, (x & 0xFF) as bv8]
  }

  function Be32(x: bv32): (s: seq<bv8>)
    ensures |s| == 4
  {
    [((x >> 24) & 0xFF) as bv8, ((x >> 16) & 0xFF) as bv8, ((x >> 8) & 0xFF) as bv8, (x & 0xFF) as bv8]
  }

  function High(x: bv64): bv32 { ((x >> 32) & 0xFFFFFFFF) as bv32 }

  function Low(x: bv64): bv32 { (x & 0xFFFFFFFF) as bv32 }

  function Join(hi: bv32, lo: bv32): bv64 { ((hi as bv64) << 32) | (lo as bv64) }

  function Be64(x: bv64): (s: seq<bv8>)
    ensures |s| == 8
  {
    Be32(High(x)) + Be32(Low(x))
  }

  function U16(s: seq<bv8>): bv16
    requires |s| == 2
  {
    ((s[0] as bv16) << 8) | (s[1] as bv16)
  }

  function U32(s: seq<bv8>): bv32
    requires |s| == 4
  {
    ((s[0] as bv32) << 24) | ((s[1] as bv32) << 16) | ((s[2] as bv32) << 8) | (s[3] as bv32)
  }

  function U64(s: seq<bv8>): bv64
    requires |s| == 8
  {
    Join(U32(s[..4]), U32(s[4..]))
  }

  lemma Be16RoundTrip(x: bv16, s: seq<bv8>)
    requires |s| == 2
    ensures U16(Be16(x)) == x
    ensures Be16(U16(s)) == s
  {}

  lemma Be32RoundTrip(x: bv32)
    ensures U32(Be32(x)) == x
  {}

  lemma U32RoundTrip(s: seq<bv8>)
    requires |s| == 4
    ensures Be32(U32(s)) == s
  {}

  lemma PartsOfJoin(hi: bv32, lo: bv32)
    ensures High(Join(hi, lo)) == hi && Low(Join(hi, lo)) == lo
  {}

  lemma Be64RoundTrip(x: bv64)
    ensures U64(Be64(x)) == x
  {}

  lemma U64RoundTrip(s: seq<bv8>)
    requires |s| == 8
    ensures Be64(U64(s)) == s
  {
    PartsOfJoin(U32(s[..4]), U32(s[4..]));
    U32RoundTrip(s[..4]);
    U32RoundTrip(s[4..]);
    assert s == s[..4] + s[4..];
  }

  // ---------------------------------------------------------------- the frame

  const MAGIC: bv32 := 0x44525354

  /** Bytes 0-17: magic, version, type, flags, reserved byte, sequence, node id, term. */
  function Head(p: Packet, v: Version): (s: seq<bv8>)
    ensures |s| == 18
  {
    Be32(MAGIC) + [v.Tag(), p.msgType, p.flags, 0] + Be16(p.seqNo) + Be32(p.nodeId) + Be32(p.term)
  }

  /** Bytes 18-49: the four timestamps. */
  function Times(p: Packet): (s: seq<bv8>)
    ensures |s| == 32
  {
    Be64(p.t1) + Be64(p.t2) + Be64(p.t3) + Be64(p.t4)
  }

  /** The frame with its CRC field still zero. */
  function Body(p: Packet, v: Version): (s: seq<bv8>)
    ensures |s| == v.Size()
  {
    Head(p, v) + Times(p) + Zeros(v.Size() - 50)
  }

  /** What proto_encode leaves in the buffer. */
  function Frame(p: Packet, v: Version): (s: seq<bv8>)
    ensures |s| == v.Size()
  {
    Head(p, v) + Times(p) + Be32(BitSerialCrc(Body(p, v))) + Zeros(v.Size() - 54)
  }

  /** The scratch copy of proto_decode. */
  function Blank(f: seq<bv8>): (s: seq<bv8>)
    requires |f| >= 54
    ensures |s| == |f|
  {
    f[..50] + Zeros(4) + f[54..]
  }

  function Stored(f: seq<bv8>): bv32
    requires |f| >= 54
  {
    U32(f[50..54])
  }

  function Parse(f: seq<bv8>): Packet
    requires |f| >= 54
  {
    Packet(f[5], f[6], U16(f[8..10]), U32(f[10..14]), U32(f[14..18]),
           U64(f[18..26]), U64(f[26..34]), U64(f[34..42]), U64(f[42..50]))
  }

  /** The outcome of proto_decode. */
  function Decode(f: seq<bv8>, v: Version): Decoded
    requires |f| == v.Size()
  {
    if U32(f[..4]) != MAGIC || f[4] != v.Tag() || Stored(f) != BitSerialCrc(Blank(f)) then Rejected
    else Accepted(Parse(f))
  }

  // ---------------------------------------------------------------- round trips

  lemma FrameParts(p: Packet, v: Version)
    ensures Frame(p, v)[..18] == Head(p, v) && Frame(p, v)[18..50] == Times(p)
    ensures Blank(Frame(p, v)) == Body(p, v)
    ensures Frame(p, v)[50..54] == Be32(BitSerialCrc(Body(p, v)))
    ensures forall k :: 54 <= k < v.Size() ==> Frame(p, v)[k] == 0
  {
    assert Zeros(v.Size() - 50) == Zeros(4) + Zeros(v.Size() - 54);
  }

  lemma HeadParts(p: Packet, v: Version)
    ensures Head(p, v)[..4] == Be32(MAGIC) && Head(p, v)[4..8] == [v.Tag(), p.msgType, p.flags, 0]
    ensures Head(p, v)[8..10] == Be16(p.seqNo)
    ensures Head(p, v)[10..14] == Be32(p.nodeId) && Head(p, v)[14..18] == Be32(p.term)
  {}

  lemma TimesParts(p: Packet)
    ensures Times(p)[..8] == Be64(p.t1) && Times(p)[8..16] == Be64(p.t2)
    ensures Times(p)[16..24] == Be64(p.t3) && Times(p)[24..32] == Be64(p.t4)
  {}

  lemma ParseHead(f: seq<bv8>, p: Packet, v: Version)
    requires |f| >= 54 && f[..18] == Head(p, v)
    ensures U32(f[..4]) == MAGIC && f[4] == v.Tag() && f[5] == p.msgType && f[6] == p.flags && f[7] == 0
    ensures U16(f[8..10]) == p.seqNo && U32(f[10..14]) == p.nodeId && U32(f[14..18]) == p.term
  {
    HeadParts(p, v);
    assert f[..18][..4] == f[..4] && f[..18][4..8] == f[4..8] && f[..18][8..10] == f[8..10];
    assert f[..18][10..14] == f[10..14] && f[..18][14..18] == f[14..18];
    assert f[4..8][0] == f[4] && f[4..8][1] == f[5] && f[4..8][2] == f[6] && f[4..8][3] == f[7];
    Be32RoundTrip(MAGIC);
    Be16RoundTrip(p.seqNo, Be16(p.seqNo));
    Be32RoundTrip(p.nodeId);
    Be32RoundTrip(p.term);
  }

  lemma SliceOfSlice(f: seq<bv8>, a: nat, b: nat, c: nat, d: nat)
    requires a <= b <= |f| && c <= d <= b - a
    ensures f[a..b][c..d] == f[a + c..a + d]
  {
    forall k | 0 <= k < d - c
      ensures f[a..b][c..d][k] == f[a + c..a + d][k]
    {
      assert f[a..b][c..d][k] == f[a..b][c + k] == f[a + (c + k)];
    }
  }

  lemma ParseTimes(f: seq<bv8>, p: Packet)
    requires |f| >= 54 && f[18..50] == Times(p)
    ensures U64(f[18..26]) == p.t1 && U64(f[26..34]) == p.t2
    ensures U64(f[34..42]) == p.t3 && U64(f[42..50]) == p.t4
  {
    TimesParts(p);
    SliceOfSlice(f, 18, 50, 0, 8);
    SliceOfSlice(f, 18, 50, 8, 16);
    SliceOfSlice(f, 18, 50, 16, 24);
    SliceOfSlice(f, 18, 50, 24, 32);
    Be64RoundTrip(p.t1);
    Be64RoundTrip(p.t2);
    Be64RoundTrip(p.t3);
    Be64RoundTrip(p.t4);
  }

  /** Every packet survives the wire, at both frame sizes. */
  lemma RoundTrip(p: Packet, v: Version)
    ensures Decode(Frame(p, v), v) == Accepted(p)
  {
    FrameParts(p, v);
    ParseHead(Frame(p, v), p, v);
    ParseTimes(Frame(p, v), p);
    Be32RoundTrip(BitSerialCrc(Body(p, v)));
  }

  predicate Canonical(f: seq<bv8>)
    requires |f| >= 54
  {
    f[7] == 0 && forall k :: 54 <= k < |f| ==> f[k] == 0
  }

  lemma HeadOfParse(f: seq<bv8>, v: Version)
    requires |f| == v.Size() && U32(f[..4]) == MAGIC && f[4] == v.Tag() && f[7] == 0
    ensures Head(Parse(f), v) == f[..18]
  {
    U32RoundTrip(f[..4]);
    Be16RoundTrip(0, f[8..10]);
    U32RoundTrip(f[10..14]);
    U32RoundTrip(f[14..18]);
    assert f[..18] == f[..4] + [f[4], f[5], f[6], f[7]] + f[8..10] + f[10..14] + f[14..18];
  }

  lemma TimesOfParse(f: seq<bv8>)
    requires |f| >= 54
    ensures Times(Parse(f)) == f[18..50]
  {
    U64RoundTrip(f[18..26]);
    U64RoundTrip(f[26..34]);
    U64RoundTrip(f[34..42]);
    U64RoundTrip(f[42..50]);
    Adjoining(f, 18, 26, 34);
    Adjoining(f, 18, 34, 42);
    Adjoining(f, 18, 42, 50);
  }

  lemma Adjoining(f: seq<bv8>, a: nat, b: nat, c: nat)
    requires a <= b <= c <= |f|
    ensures f[a..b] + f[b..c] == f[a..c]
  {}

  lemma BlankOfParse(f: seq<bv8>, v: Version)
    requires |f| == v.Size() && U32(f[..4]) == MAGIC && f[4] == v.Tag() && Canonical(f)
    ensures Blank(f) == Body(Parse(f), v)
  {
    HeadOfParse(f, v);
    TimesOfParse(f);
    assert f[54..] == Zeros(v.Size() - 54);
    assert Zeros(v.Size() - 50) == Zeros(4) + Zeros(v.Size() - 54);
    assert f[..50] == f[..18] + f[18..50];
  }

  lemma ReencodeCanonical(f: seq<bv8>, v: Version)
    requires |f| == v.Size() && Decode(f, v).Accepted? && Canonical(f)
    ensures Frame(Parse(f), v) == f
  {
    HeadOfParse(f, v);
    TimesOfParse(f);
    BlankOfParse(f, v);
    U32RoundTrip(f[50..54]);
    assert f[54..] == Zeros(v.Size() - 54);
    assert f == f[..18] + f[18..50] + f[50..54] + f[54..];
  }

  /** An accepted frame re-encodes to itself exactly when the reserved byte and the padding are zero. */
  lemma ReencodeIff(f: seq<bv8>, v: Version)
    requires |f| == v.Size() && Decode(f, v).Accepted?
    ensures Frame(Decode(f, v).packet, v) == f <==> Canonical(f)
  {
    var p := Decode(f, v).packet;
    if Frame(p, v) == f {
      FrameParts(p, v);
      ParseHead(f, p, v);
    }
    if Canonical(f) {
      ReencodeCanonical(f, v);
    }
  }

  // ---------------------------------------------------------------- layout

  /** The bytes from i on as a number, most significant first. */
  function At16(f: seq<bv8>, i: nat): bv16
    requires i + 2 <= |f|
  {
    0x100 * (f[i] as bv16) + (f[i + 1] as bv16)
  }

  function At32(f: seq<bv8>, i: nat): bv32
    requires i + 4 <= |f|
  {
    0x1000000 * (f[i] as bv32) + 0x10000 * (f[i + 1] as bv32) + 0x100 * (f[i + 2] as bv32) + (f[i + 3] as bv32)
  }

  function At64(f: seq<bv8>, i: nat): bv64
    requires i + 8 <= |f|
  {
    0x1_0000_0000 * (At32(f, i) as bv64) + (At32(f, i + 4) as bv64)
  }

  lemma JoinIsSum(hi: bv32, lo: bv32)
    ensures Join(hi, lo) == 0x1_0000_0000 * (hi as bv64) + (lo as bv64)
  {}

  lemma U32IsSum(s: seq<bv8>)
    requires |s| == 4
    ensures U32(s) == At32(s, 0)
  {}

  lemma U16IsAt(f: seq<bv8>, i: nat)
    requires i + 2 <= |f|
    ensures U16(f[i..i + 2]) == At16(f, i)
  {}

  lemma U32IsAt(f: seq<bv8>, i: nat)
    requires i + 4 <= |f|
    ensures U32(f[i..i + 4]) == At32(f, i)
  {
    U32IsSum(f[i..i + 4]);
    assert f[i..i + 4][0] == f[i] && f[i..i + 4][1] == f[i + 1];
    assert f[i..i + 4][2] == f[i + 2] && f[i..i + 4][3] == f[i + 3];
  }

  lemma U64IsAt(f: seq<bv8>, i: nat)
    requires i + 8 <= |f|
    ensures U64(f[i..i + 8]) == At64(f, i)
  {
    assert f[i..i + 8][..4] == f[i..i + 4] && f[i..i + 8][4..] == f[i + 4..i + 8];
    U32IsAt(f, i);
    U32IsAt(f, i + 4);
    JoinIsSum(U32(f[i..i + 4]), U32(f[i + 4..i + 8]));
  }

  /** Where each field is and in which byte order. */
  predicate LaidOut(f: seq<bv8>, p: Packet)
    requires |f| >= 54
  {
    && p.msgType == f[5] && p.flags == f[6]
    && p.seqNo == At16(f, 8) && p.nodeId == At32(f, 10) && p.term == At32(f, 14)
    && p.t1 == At64(f, 18) && p.t2 == At64(f, 26) && p.t3 == At64(f, 34) && p.t4 == At64(f, 42)
  }

  lemma ParseLayout(f: seq<bv8>)
    requires |f| >= 54
    ensures LaidOut(f, Parse(f))
  {
    U16IsAt(f, 8);
    U32IsAt(f, 10);
    U32IsAt(f, 14);
    U64IsAt(f, 18);
    U64IsAt(f, 26);
    U64IsAt(f, 34);
    U64IsAt(f, 42);
  }

  lemma MagicBytes(s: seq<bv8>)
    requires |s| == 4
    ensures U32(s) == MAGIC <==> s == [0x44, 0x52, 0x53, 0x54]
  {
    U32RoundTrip(s);
  }

  /**
   Decoding in terms of byte positions: a frame is accepted exactly if it starts with DRST and the version and
   carries at byte 50 the CRC of itself with those four bytes zero, and its fields are big-endian at fixed places.
   */
  lemma DecodeLayout(f: seq<bv8>, v: Version)
    requires |f| == v.Size()
    ensures Decode(f, v).Accepted? <==>
            f[..4] == [0x44, 0x52, 0x53, 0x54] && f[4] == v.Tag() && At32(f, 50) == BitSerialCrc(Blank(f))
    ensures Decode(f, v).Accepted? ==> LaidOut(f, Decode(f, v).packet)
  {
    MagicBytes(f[..4]);
    U32IsAt(f, 50);
    ParseLayout(f);
  }

  /** Encoding puts every field there. */
  lemma EncodeLayout(p: Packet, v: Version)
    ensures LaidOut(Frame(p, v), p) && Canonical(Frame(p, v))
    ensures Frame(p, v)[..4] == [0x44, 0x52, 0x53, 0x54]
    ensures if v.V1? then |Frame(p, v)| == 66 && Frame(p, v)[4] == 1 else |Frame(p, v)| == 64 && Frame(p, v)[4] == 2
    ensures At32(Frame(p, v), 50) == BitSerialCrc(Blank(Frame(p, v)))
  {
    RoundTrip(p, v);
    DecodeLayout(Frame(p, v), v);
    ReencodeIff(Frame(p, v), v);
  }

  // ---------------------------------------------------------------- corrupted frames

  lemma XorEqual(a: bv32, b: bv32, c: bv32, d: bv32)
    requires a == b
    ensures c == d <==> Xor(b, d) == Xor(a, c)
  {}

  /**
   The exact condition under which an altered frame still passes: the header is intact and the
   difference written into the CRC field is the one the altered bytes cause.
   */
  lemma AlteredAcceptedIff(f: seq<bv8>, g: seq<bv8>, v: Version)
    requires |f| == |g| == v.Size() && Decode(f, v).Accepted?
    ensures Decode(g, v).Accepted? <==>
            && U32(g[..4]) == MAGIC && g[4] == v.Tag()
            && Xor(Stored(f), Stored(g)) == FeedBytes(0, XorBytes(Blank(f), Blank(g)))
  {
    CrcDifference(Blank(f), Blank(g));
    XorEqual(BitSerialCrc(Blank(f)), Stored(f), Stored(g), BitSerialCrc(Blank(g)));
    XorEqual(Stored(f), BitSerialCrc(Blank(f)), Stored(g), BitSerialCrc(Blank(g)));
  }

  /** The altered window does not straddle an edge of the CRC field. */
  predicate OffTheEdge(i: nat, k: nat) {
    i + k <= 50 || 54 <= i || (50 <= i && i + k <= 54)
  }

  lemma WindowElsewhere(f: seq<bv8>, g: seq<bv8>, i: nat, k: nat)
    requires |f| >= 54 && AgreeOutside(f, g, i, k) && (i + k <= 50 || 54 <= i)
    ensures Stored(f) == Stored(g) && AgreeOutside(Blank(f), Blank(g), i, k)
    ensures f != g ==> Blank(f) != Blank(g)
  {
    forall j | 0 <= j < |f| && !(i <= j < i + k)
      ensures f[j] == g[j]
    {
      if j < i { assert f[j] == f[..i][j]; assert g[j] == g[..i][j]; }
      else { assert f[j] == f[i + k..][j - i - k]; assert g[j] == g[i + k..][j - i - k]; }
    }
    assert f[50..54] == g[50..54];
    assert Blank(f)[..i] == Blank(g)[..i];
    assert Blank(f)[i + k..] == Blank(g)[i + k..];
    if Blank(f) == Blank(g) {
      forall j | 0 <= j < |f|
        ensures f[j] == g[j]
      {
        if j < 50 || 54 <= j { assert f[j] == Blank(f)[j]; assert g[j] == Blank(g)[j]; }
        else { assert f[j] == f[50..54][j - 50]; assert g[j] == g[50..54][j - 50]; }
      }
    }
  }

  lemma WindowInField(f: seq<bv8>, g: seq<bv8>, i: nat, k: nat)
    requires |f| >= 54 && AgreeOutside(f, g, i, k) && 50 <= i && i + k <= 54
    ensures Blank(f) == Blank(g) && f[..50] == g[..50]
    ensures f != g ==> Stored(f) != Stored(g)
  {}

  /** No change within four consecutive bytes off the edges of the CRC field passes. */
  lemma CorruptionRejected(f: seq<bv8>, g: seq<bv8>, v: Version, i: nat, k: nat)
    requires |f| == v.Size() && Decode(f, v).Accepted?
    requires f != g && k <= 4 && AgreeOutside(f, g, i, k) && OffTheEdge(i, k)
    ensures Decode(g, v).Rejected?
  {
    if i + k <= 50 || 54 <= i {
      WindowElsewhere(f, g, i, k);
      BurstDetected(Blank(f), Blank(g), i, k);
    } else {
      WindowInField(f, g, i, k);
    }
  }
}
