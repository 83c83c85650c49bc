/** HTTP/2 frame headers and frame cutting (section 4.1 of RFC 7540). */
module Http2Frame {

  type byte = x: int | 0 <= x < 256

  const HEADER_LEN: nat := 9
  const TWO_24: int := 0x100_0000
  const TWO_27: int := 0x800_0000
  const TWO_31: int := 0x8000_0000
  const TWO_32: int := 0x1_0000_0000

  /** `size` is the announced payload length, `reserved` the top bit of the id field. */
  datatype Header = Header(size: nat, typ: byte, flag: byte, streamId: nat, reserved: bool)

  datatype Frame = Frame(hdr: Header, payload: seq<byte>)

  ghost predicate WellFormed(f: Frame) {
    f.hdr.size == |f.payload| < TWO_24 && f.hdr.streamId < TWO_31
  }

  // ----- network byte order -----

  function ByteAt(n: nat, shift: nat): byte
    requires shift > 0
  {
    (n / shift) % 256
  }

  function Be24(n: nat): (r: seq<byte>) ensures |r| == 3 { [ByteAt(n, 0x1_0000), ByteAt(n, 0x100), ByteAt(n, 1)] }

  function Be32(n: nat): (r: seq<byte>) ensures |r| == 4 {
    [ByteAt(n, 0x100_0000), ByteAt(n, 0x1_0000), ByteAt(n, 0x100), ByteAt(n, 1)]
  }

  function FromBe24(b: seq<byte>): (n: nat)
    requires |b| >= 3
    ensures n < TWO_24
  {
    b[0] as int * 0x1_0000 + b[1] as int * 0x100 + b[2]
  }

  function FromBe32(b: seq<byte>): (n: nat)
    requires |b| >= 4
    ensures n < TWO_32
  {
    b[0] as int * 0x100_0000 + b[1] as int * 0x1_0000 + b[2] as int * 0x100 + b[3]
  }

  lemma Be24RoundTrip(n: nat)
    requires n < TWO_24
    ensures FromBe24(Be24(n)) == n
  {
    assert n / 0x100 == (n / 0x1_0000) * 0x100 + ByteAt(n, 0x100) by {
      assert n / 0x1_0000 == (n / 0x100) / 0x100;
    }
    assert n / 0x1_0000 < 0x100;
    assert n == (n / 0x100) * 0x100 + ByteAt(n, 1);
  }

  lemma Be32RoundTrip(n: nat)
    requires n < TWO_32
    ensures FromBe32(Be32(n)) == n
  {
    var q := n / 0x100;
    Be24RoundTrip(q);
    ByteShift(n, 1);
    ByteShift(n, 0x100);
    ByteShift(n, 0x1_0000);
    assert n == q * 0x100 + ByteAt(n, 1);
    hide ByteAt;
  }

  lemma ByteShift(n: nat, shift: nat)
    requires shift in {1, 0x100, 0x1_0000}
    ensures ByteAt(n / 0x100, shift) == ByteAt(n, shift * 0x100)
  {
  }

  lemma FromBe24RoundTrip(b: seq<byte>)
    requires |b| == 3
    ensures Be24(FromBe24(b)) == b
  {
    var n := FromBe24(b);
    assert n / 0x100 == b[0] as int * 0x100 + b[1];
  }

  lemma FromBe32RoundTrip(b: seq<byte>)
    requires |b| == 4
    ensures Be32(FromBe32(b)) == b
  {
    var n := FromBe32(b);
    assert n / 0x100 == b[0] as int * 0x1_0000 + b[1] as int * 0x100 + b[2];
    assert n / 0x1_0000 == b[0] as int * 0x100 + b[1];
  }

  // ----- the header as the parser reads it and as the RFC lays it out -----

  function ParseHeader(b: seq<byte>): (h: Header)
    requires |b| >= HEADER_LEN
    ensures h.size < TWO_24 && h.streamId < TWO_31
  {
    var id := FromBe32(b[5..]);
    Header(FromBe24(b), b[3], b[4], id % TWO_31, id >= TWO_31)
  }

  function WireHeader(h: Header): (b: seq<byte>)
    ensures |b| == HEADER_LEN
  {
    Be24(h.size) + [h.typ, h.flag] + Be32(h.streamId + if h.reserved then TWO_31 else 0)
  }

  lemma ParseWire(h: Header, rest: seq<byte>)
    requires h.size < TWO_24 && h.streamId < TWO_31
    ensures ParseHeader(WireHeader(h) + rest) == h
  {
    var b := WireHeader(h) + rest;
    var id := h.streamId + if h.reserved then TWO_31 else 0;
    Be24RoundTrip(h.size);
    Be32RoundTrip(id);
    assert b[..3] == Be24(h.size) && b[5..][..4] == Be32(id);
  }

  lemma FieldsOfPrefix(b: seq<byte>)
    requires |b| >= HEADER_LEN
    ensures FromBe24(b) == FromBe24(b[..3]) && FromBe32(b[5..]) == FromBe32(b[5..9])
  {}

  lemma WireParse(b: seq<byte>)
    requires |b| >= HEADER_LEN
    ensures WireHeader(ParseHeader(b)) == b[..HEADER_LEN]
  {
    hide FromBe24, FromBe32, Be24, Be32;
    FieldsOfPrefix(b);
    FromBe32RoundTrip(b[5..9]);
    FromBe24RoundTrip(b[..3]);
    assert b[..9] == b[..3] + [b[3], b[4]] + b[5..9];
  }

  // ----- BuildHttp2Frame -----

  /** The id is masked with 0xfffffff7 after the swap to network order: bit 27 is lost. */
  function BuildHeader(n: nat, typ: byte, flag: byte, id: nat): (b: seq<byte>)
    requires id < TWO_32
    ensures |b| == HEADER_LEN
  {
    Be24(n) + [typ, flag] + [MaskF7(ByteAt(id, 0x100_0000))] + Be24(id)
  }

  /** b & 0xf7: clears bit 3 of a byte. */
  function MaskF7(b: byte): byte { if (b / 8) % 2 == 1 then b - 8 else b }

  function ClearBit27(id: nat): nat { if (id / TWO_27) % 2 == 1 then id - TWO_27 else id }

  lemma ModDrop(hi: int, x: int)
    ensures (hi * 256 + x) % 256 == x % 256
  {}

  /** The three low bytes only see the low 24 bits. */
  lemma Be24Low(hi: nat, lo: nat)
    requires lo < TWO_24
    ensures Be24(hi * TWO_24 + lo) == Be24(lo)
    ensures ByteAt(hi * TWO_24 + lo, 0x100_0000) == hi % 256
  {
    var n := hi * TWO_24 + lo;
    assert ByteAt(n, 0x1_0000) == ByteAt(lo, 0x1_0000) by {
      assert n / 0x1_0000 == hi * 256 + lo / 0x1_0000;
      ModDrop(hi, lo / 0x1_0000);
    }
    assert ByteAt(n, 0x100) == ByteAt(lo, 0x100) by {
      assert n / 0x100 == (hi * 256) * 256 + lo / 0x100;
      ModDrop(hi * 256, lo / 0x100);
    }
    assert ByteAt(n, 1) == ByteAt(lo, 1) by {
      ModDrop(hi * 0x1_0000, lo);
    }
  }

  lemma TopAndLow(id: nat)
    requires id < TWO_32
    ensures id == (id / TWO_24) * TWO_24 + id % TWO_24 && id / TWO_24 < 256 && id % TWO_24 < TWO_24
  {}

  lemma MaskIsBit27(id: nat)
    requires id < TWO_32
    ensures [MaskF7(ByteAt(id, 0x100_0000))] + Be24(id) == Be32(ClearBit27(id))
  {
    TopAndLow(id);
    MaskParts(id, id / TWO_24, id % TWO_24);
  }

  lemma MaskParts(id: nat, top: byte, low: nat)
    requires id == top * TWO_24 + low && low < TWO_24
    ensures [MaskF7(ByteAt(id, 0x100_0000))] + Be24(id) == Be32(ClearBit27(id))
  {
    ClearTop(id, top, low);
    hide Be24, Be32, ByteAt, MaskF7, ClearBit27;
    TopByte(id, top, low);
    Be32Top(ClearBit27(id), MaskF7(top), low);
  }

  lemma TopByte(n: nat, top: byte, low: nat)
    requires n == top * TWO_24 + low && low < TWO_24
    ensures ByteAt(n, 0x100_0000) == top && Be24(n) == Be24(low)
  {
    hide Be24, ByteAt;
    Be24Low(top, low);
  }

  lemma Be32Top(n: nat, top: byte, low: nat)
    requires n == top * TWO_24 + low && low < TWO_24
    ensures Be32(n) == [top] + Be24(low)
  {
    hide Be24, Be32, ByteAt;
    TopByte(n, top, low);
    Be32Parts(n);
  }

  lemma ClearTop(id: nat, top: byte, low: nat)
    requires id == top * TWO_24 + low && low < TWO_24
    ensures ClearBit27(id) == MaskF7(top) * TWO_24 + low
  {
    assert top / 8 == id / TWO_27;
  }

  lemma Be32Parts(n: nat)
    ensures Be32(n) == [ByteAt(n, 0x100_0000)] + Be24(n)
  {
  }

  /** What a peer reads back from a header the server wrote, for every length and id. */
  lemma BuildReadsBack(n: nat, typ: byte, flag: byte, id: nat, rest: seq<byte>)
    requires id < TWO_32
    ensures ParseHeader(BuildHeader(n, typ, flag, id) + rest)
         == Header(n % TWO_24, typ, flag, ClearBit27(id) % TWO_31, ClearBit27(id) >= TWO_31)
  {
    hide ParseHeader, Be24, Be32;
    MaskIsBit27(id);
    var id' := ClearBit27(id);
    var h := Header(n % TWO_24, typ, flag, id' % TWO_31, id' >= TWO_31);
    assert n == (n / TWO_24) * TWO_24 + n % TWO_24;
    Be24Low(n / TWO_24, n % TWO_24);
    assert BuildHeader(n, typ, flag, id) == WireHeader(h);
    ParseWire(h, rest);
  }

  /** The header codec is exact on lengths below 2^24 and 31-bit ids whose bit 27 is clear, and
      on nothing else. */
  lemma BuildIsExactIff(n: nat, typ: byte, flag: byte, id: nat, rest: seq<byte>)
    requires id < TWO_32
    ensures ParseHeader(BuildHeader(n, typ, flag, id) + rest) == Header(n, typ, flag, id, false)
       <==> n < TWO_24 && id < TWO_31 && (id / TWO_27) % 2 == 0
  {
    hide ParseHeader, BuildHeader;
    BuildReadsBack(n, typ, flag, id, rest);
  }

  // ----- cutting a receive buffer into frames -----

  /** The length of the complete frame at the front of the buffer, 0 when there is none. */
  function FrontFrame(buf: seq<byte>): (n: nat)
    ensures n <= |buf| && (n == 0 || n >= HEADER_LEN)
  {
    if |buf| < HEADER_LEN || ParseHeader(buf).size > |buf| - HEADER_LEN then 0
    else HEADER_LEN + ParseHeader(buf).size
  }

  datatype Pieces = Pieces(frames: seq<Frame>, residual: seq<byte>)

  function FrameAt(buf: seq<byte>): (f: Frame)
    requires FrontFrame(buf) > 0
    ensures WellFormed(f)
  {
    Frame(ParseHeader(buf), buf[HEADER_LEN..FrontFrame(buf)])
  }

  function Cut(buf: seq<byte>): Pieces
    decreases |buf|
  {
    if FrontFrame(buf) == 0 then Pieces([], buf)
    else
      var p := Cut(buf[FrontFrame(buf)..]);
      Pieces([FrameAt(buf)] + p.frames, p.residual)
  }

  function Wire(f: Frame): seq<byte> { WireHeader(f.hdr) + f.payload }

  function WireAll(fs: seq<Frame>): seq<byte> {
    if fs == [] then [] else Wire(fs[0]) + WireAll(fs[1..])
  }

  /** Header parsing only looks at the first nine bytes. */
  lemma ParsePrefix(a: seq<byte>, b: seq<byte>)
    requires |a| >= HEADER_LEN
    ensures ParseHeader(a + b) == ParseHeader(a)
  {
    assert FromBe24(a + b) == FromBe24(a);
    assert (a + b)[5..][..4] == a[5..][..4];
    assert FromBe32((a + b)[5..]) == FromBe32(a[5..]);
  }

  lemma WireFirst(f: Frame, fs: seq<Frame>)
    ensures WireAll([f] + fs) == Wire(f) + WireAll(fs)
  {
    assert ([f] + fs)[1..] == fs;
  }

  lemma FrontAndRest(buf: seq<byte>, n: nat, a: seq<byte>, b: seq<byte>)
    requires n <= |buf| && a + b == buf[n..]
    ensures buf[..n] + a + b == buf
  {
    assert buf[..n] + a + b == buf[..n] + (a + b);
  }

  /** Every frame consumes exactly 9 + length bytes and the residual is the unconsumed suffix. */
  lemma {:induction false} CutConsumes(buf: seq<byte>)
    ensures WireAll(Cut(buf).frames) + Cut(buf).residual == buf
    ensures FrontFrame(Cut(buf).residual) == 0
    ensures forall f :: f in Cut(buf).frames ==> WellFormed(f)
    decreases |buf|
  {
    hide ParseHeader, WireHeader;
    var n := FrontFrame(buf);
    if n > 0 {
      CutConsumes(buf[n..]);
      WireParse(buf);
      var p := Cut(buf[n..]);
      assert Wire(FrameAt(buf)) == buf[..n];
      hide FrontFrame, FrameAt, Wire, WellFormed;
      WireFirst(FrameAt(buf), p.frames);
      FrontAndRest(buf, n, WireAll(p.frames), p.residual);
    }
  }

  lemma FrontOfWire(f: Frame, rest: seq<byte>)
    requires WellFormed(f)
    ensures var buf := Wire(f) + rest;
            FrontFrame(buf) == |Wire(f)| && FrameAt(buf) == f && buf[FrontFrame(buf)..] == rest
  {
    var buf := Wire(f) + rest;
    assert buf == WireHeader(f.hdr) + (f.payload + rest);
    ParseWire(f.hdr, f.payload + rest);
    assert buf[HEADER_LEN..|Wire(f)|] == f.payload;
  }

  /** Frames written back to back are cut apart again, whatever incomplete frame follows. */
  lemma {:induction false} CutWire(fs: seq<Frame>, tail: seq<byte>)
    requires (forall f :: f in fs ==> WellFormed(f)) && FrontFrame(tail) == 0
    ensures Cut(WireAll(fs) + tail) == Pieces(fs, tail)
    decreases |fs|
  {
    hide ParseHeader, WireHeader;
    if fs == [] {
      assert WireAll(fs) + tail == tail;
    } else {
      FrontOfWire(fs[0], WireAll(fs[1..]) + tail);
      assert WireAll(fs) + tail == Wire(fs[0]) + (WireAll(fs[1..]) + tail);
      CutWire(fs[1..], tail);
    }
  }

  /** Cutting does not depend on how the bytes arrive. */
  lemma {:induction false} CutAppend(a: seq<byte>, b: seq<byte>)
    ensures Cut(a + b) == Pieces(Cut(a).frames + Cut(Cut(a).residual + b).frames, Cut(Cut(a).residual + b).residual)
    decreases |a|
  {
    hide ParseHeader;
    var n := FrontFrame(a);
    if n > 0 {
      ParsePrefix(a, b);
      assert FrontFrame(a + b) == n;
      assert FrameAt(a + b) == FrameAt(a) by { assert (a + b)[HEADER_LEN..n] == a[HEADER_LEN..n]; }
      assert (a + b)[n..] == a[n..] + b;
      CutAppend(a[n..], b);
    }
  }
}
