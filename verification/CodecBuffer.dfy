/** The buffer code of proto_v2.c, proved against the frame functions of Codec. */
module CodecBuffer {
  import opened Crc32
  import opened CrcDetection
  import opened Codec

  /** memset of n bytes from position at. */
  method Clear(buf: array<bv8>, at: nat, n: nat)
    requires at + n <= buf.Length
    modifies buf
    ensures buf[..] == old(buf[..at]) + Zeros(n) + old(buf[at + n..])
  {
    for i := 0 to n
      invariant forall k :: 0 <= k < buf.Length ==> buf[k] == if at <= k < at + i then 0 else old(buf[k])
    {
      buf[at + i] := 0;
    }
  }

  /** memcpy of the bytes bs to position at. */
  method Put(buf: array<bv8>, at: nat, bs: seq<bv8>)
    requires at + |bs| <= buf.Length
    modifies buf
    ensures buf[..] == old(buf[..at]) + bs + old(buf[at + |bs|..])
  {
    for i := 0 to |bs|
      invariant forall k :: 0 <= k < buf.Length ==> buf[k] == if at <= k < at + i then bs[k - at] else old(buf[k])
    {
      buf[at + i] := bs[i];
    }
  }

  /** Writes the next field of a frame whose rest is still zero. */
  method Append(buf: array<bv8>, at: nat, bs: seq<bv8>, ghost done: seq<bv8>)
    requires at == |done| && at + |bs| <= buf.Length
    requires buf[..] == done + Zeros(buf.Length - at)
    modifies buf
    ensures buf[..] == done + bs + Zeros(buf.Length - at - |bs|)
  {
    ghost var before := buf[..];
    assert before[at + |bs|..] == Zeros(buf.Length - at - |bs|);
    assert before[..at] == done;
    assert buf[..at] == before[..at] && buf[at + |bs|..] == before[at + |bs|..];
    Put(buf, at, bs);
  }

  /** Four fields in a row. */
  method AppendFour(buf: array<bv8>, at: nat, a: seq<bv8>, b: seq<bv8>, c: seq<bv8>, d: seq<bv8>, ghost done: seq<bv8>)
    requires at == |done| && at + |a| + |b| + |c| + |d| <= buf.Length
    requires buf[..] == done + Zeros(buf.Length - at)
    modifies buf
    ensures buf[..] == done + (a + b + c + d) + Zeros(buf.Length - at - |a| - |b| - |c| - |d|)
  {
    Append(buf, at, a, done);
    Append(buf, at + |a|, b, done + a);
    Append(buf, at + |a| + |b|, c, done + a + b);
    Append(buf, at + |a| + |b| + |c|, d, done + a + b + c);
    assert done + a + b + c + d == done + (a + b + c + d);
  }

  method PutHead(buf: array<bv8>, p: Packet, v: Version)
    requires buf.Length == v.Size() && buf[..] == Zeros(v.Size())
    modifies buf
    ensures buf[..] == Head(p, v) + Zeros(v.Size() - 18)
  {
    var magic := Be32(MAGIC);
    assert Zeros(v.Size()) == [] + Zeros(v.Size());
    Append(buf, 0, magic, []);
    assert [] + magic == magic;
    var tags, seqNo, nodeId, term := [v.Tag(), p.msgType, p.flags, 0], Be16(p.seqNo), Be32(p.nodeId), Be32(p.term);
    AppendFour(buf, 4, tags, seqNo, nodeId, term, magic);
    assert magic + (tags + seqNo + nodeId + term) == magic + tags + seqNo + nodeId + term;
  }

  method PutTimes(buf: array<bv8>, p: Packet, v: Version, ghost head: seq<bv8>)
    requires buf.Length == v.Size() && |head| == 18 && buf[..] == head + Zeros(v.Size() - 18)
    modifies buf
    ensures buf[..] == head + Times(p) + Zeros(v.Size() - 50)
  {
    AppendFour(buf, 18, Be64(p.t1), Be64(p.t2), Be64(p.t3), Be64(p.t4), head);
  }

  /** proto_encode: the buffer ends up holding the frame, whatever it held before. */
  method Encode(buf: array<bv8>, p: Packet, v: Version, crc: Engine)
    requires buf.Length == v.Size() && crc.Valid()
    modifies buf, crc`initialized, crc.table
    ensures crc.Valid() && buf[..] == Frame(p, v)
  {
    Clear(buf, 0, buf.Length);
    assert buf[..] == Zeros(v.Size());
    PutHead(buf, p, v);
    PutTimes(buf, p, v, Head(p, v));
    var sum := crc.Compute(buf[..]);
    Append(buf, 50, Be32(sum), Head(p, v) + Times(p));
  }

  /** proto_decode, with its scratch copy; the received buffer is left as it was. */
  method Decode(buf: array<bv8>, v: Version, crc: Engine) returns (r: Decoded)
    requires buf.Length == v.Size() && crc.Valid()
    modifies crc`initialized, crc.table
    ensures crc.Valid() && r == Codec.Decode(buf[..], v)
  {
    if U32(buf[..4]) != MAGIC {
      assert buf[..][..4] == buf[..4];
      return Rejected;
    }
    if buf[4] != v.Tag() {
      return Rejected;
    }
    var scratch := new bv8[buf.Length];
    Put(scratch, 0, buf[..]);
    assert scratch[..] == buf[..];
    Clear(scratch, 50, 4);
    assert scratch[..] == Blank(buf[..]);
    var computed := crc.Compute(scratch[..]);
    assert buf[..][..4] == buf[..4] && buf[..][50..54] == buf[50..54];
    if U32(buf[50..54]) != computed {
      return Rejected;
    }
    return Accepted(Parse(buf[..]));
  }
}
