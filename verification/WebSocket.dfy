/** WebSocket framing (RFC 6455): the writer of text frames and the reader, which unmasks in place. */
module WebSocket {
  import opened Basics

  const TWO_32: nat := 0x1_0000_0000

  // ----- numbers in network order -----

  function Byte(n: int): (b: bv8)
    requires 0 <= n < 256
    ensures b as int == n
  {
    ByteIsExact(n);
    n as bv8
  }

  lemma ByteIsExact(n: int)
    requires 0 <= n < 256
    ensures (n as bv8) as int == n
  {
    assert n % 256 == n;
  }

  function ToNet(n: nat, k: nat): (b: seq<bv8>)
    ensures |b| == k
  {
    if k == 0 then [] else ToNet(n / 256, k - 1) + [Byte(n % 256)]
  }

  function FromNet(b: seq<bv8>): nat {
    if b == [] then 0 else 256 * FromNet(b[..|b| - 1]) + b[|b| - 1] as nat
  }

  function Pow256(k: nat): nat { if k == 0 then 1 else 256 * Pow256(k - 1) }

  lemma {:induction false} NetRoundTrip(n: nat, k: nat)
    requires n < Pow256(k)
    ensures FromNet(ToNet(n, k)) == n
  {
    if k > 0 {
      NetRoundTrip(n / 256, k - 1);
      hide Byte;
      var front := ToNet(n / 256, k - 1);
      assert (front + [Byte(n % 256)])[..k - 1] == front;
    }
  }

  // ----- masking, section 5.3 -----

  type Key = k: seq<bv8> | |k| == 4 witness [0, 0, 0, 0]

  function Xor(x: bv8, k: bv8): bv8 { x ^ k }

  function KeyAt(key: Key, i: nat): bv8 { key[i % 4] }

  /** Octets `at`, `at` + 1, ... of a masked payload, or back. */
  function Masked(data: seq<bv8>, key: Key, at: nat): (m: seq<bv8>)
    ensures |m| == |data|
  {
    seq(|data|, j requires 0 <= j < |data| => Xor(data[j], KeyAt(key, at + j)))
  }

  lemma MaskTwice(data: seq<bv8>, key: Key, at: nat)
    ensures Masked(Masked(data, key, at), key, at) == data
  {
    forall j | 0 <= j < |data| ensures Xor(Xor(data[j], KeyAt(key, at + j)), KeyAt(key, at + j)) == data[j] {
      XorTwice(data[j], KeyAt(key, at + j));
    }
    hide Xor, KeyAt;
  }

  lemma XorTwice(x: bv8, k: bv8)
    ensures Xor(Xor(x, k), k) == x
  {
  }

  // ----- frames, section 5.2 -----

  datatype Frame = Frame(op: bv8, fin: bool, key: Option<Key>, payload: seq<bv8>)

  function Len7(n: nat): nat { if n <= 125 then n else if n <= 65535 then 126 else 127 }

  function ExtLen(n: nat): seq<bv8> {
    if n <= 125 then [] else if n <= 65535 then ToNet(n, 2) else ToNet(n, 8)
  }

  /** HEADER: FIN and OpCode in the first byte, Mask and PLoad in the second. */
  function FirstByte(fin: bool, op: bv8): bv8 { (if fin then 0x80 else 0) | op }
  function SecondByte(mask: bool, len7: bv8): bv8 { (if mask then 0x80 else 0) | len7 }
  function OpCode(b: bv8): bv8 { b & 0xf }
  function PLoad(b: bv8): nat { (b & 0x7f) as nat }
  predicate TopBit(b: bv8) { b & 0x80 != 0 }

  function HeaderOf(f: Frame): seq<bv8> {
    [FirstByte(f.fin, f.op), SecondByte(f.key.Some?, Byte(Len7(|f.payload|)))]
    + ExtLen(|f.payload|) + (if f.key.Some? then f.key.value else [])
  }

  function OnWire(f: Frame): seq<bv8> {
    if f.key.Some? then Masked(f.payload, f.key.value, 0) else f.payload
  }

  function Encode(f: Frame): seq<bv8> { HeaderOf(f) + OnWire(f) }

  function TextFrame(payload: seq<bv8>): Frame { Frame(1, true, None, payload) }

  /** The sum of two uint32_t. */
  function Sum32(a: nat, b: nat): nat { (a + b) % TWO_32 }

  lemma SumFits(n: nat, h: nat)
    requires n < TWO_32 && h == if n <= 125 then 2 else if n <= 65535 then 4 else 10
    ensures n + h <= Sum32(n, h) <==> n < TWO_32 - 10
    ensures n + h <= Sum32(n, h) <==> n + h == Sum32(n, h)
  {
  }

  lemma TextHeader(payload: seq<bv8>)
    requires |payload| < TWO_32
    ensures var (f, n) := (TextFrame(payload), |payload|);
            && HeaderOf(f) == [0x81, Byte(Len7(n))] + ExtLen(n) && Encode(f) == HeaderOf(f) + payload
            && |ExtLen(n)| == if n <= 125 then 0 else if n <= 65535 then 2 else 8
  {
    assert FirstByte(true, 1) == 0x81;
  }

  // ----- the reader -----

  /** m_soSocketParam.  `len` == 0 means that a header comes next. */
  datatype State = State(op: bv8, fin: bool, mask: bool, len: nat, key: Key, received: nat)

  const IDLE := State(0, false, false, 0, [0, 0, 0, 0], 0)

  datatype Event = Text(data: seq<bv8>) | Binary(data: seq<bv8>, last: bool)

  /** `Beyond`: bytes from beyond the read are used, of a header cut by its end or of a text frame of
      which only the last part is at hand.  `Control`: opcodes 3 and up. */
  datatype Result = Done(st: State, events: seq<Event>) | Beyond | Control

  predicate Valid(st: State) { st.received < st.len || (st.len == 0 && st.received == 0) }

  function ExtBytes(len7: nat): nat { if len7 == 126 then 2 else if len7 == 127 then 8 else 0 }

  function HeaderLen(buf: seq<bv8>): (n: nat)
    requires |buf| >= 2
    ensures n >= 2
  {
    2 + ExtBytes(PLoad(buf[1])) + (if TopBit(buf[1]) then 4 else 0)
  }

  /** The header at the front of `buf`; the key of an unmasked frame is the one before. */
  function ParseHeader(st: State, buf: seq<bv8>): State
    requires |buf| >= 2 && |buf| >= HeaderLen(buf)
  {
    var (len7, mask) := (PLoad(buf[1]), TopBit(buf[1]));
    var k := 2 + ExtBytes(len7);
    State(OpCode(buf[0]), TopBit(buf[0]), mask, if k == 2 then len7 else FromNet(buf[2..k]),
          if mask then buf[k..k + 4] else st.key, st.received)
  }

  /** The block of one turn, unmasked from the start of the key. */
  function Block(st: State, data: seq<bv8>): (b: seq<bv8>)
    requires st.received <= st.len
    ensures |b| == Least(st.len - st.received, |data|)
  {
    var n := Least(st.len - st.received, |data|);
    if st.mask then Masked(data[..n], st.key, 0) else data[..n]
  }

  predicate TextCut(st: State, block: seq<bv8>)
    requires st.received <= st.len
  {
    st.op == 1 && st.fin && st.received > 0 && st.received + |block| == st.len
  }

  /** What one turn delivers, and the state after it. */
  function Deliver(st: State, block: seq<bv8>): (r: (State, seq<Event>))
    requires st.op <= 2
    ensures st.received + |block| <= st.len ==> Valid(r.0)
  {
    var received := st.received + |block|;
    var st' := if received == st.len then State(0, false, false, 0, st.key, 0) else st.(received := received);
    (st', if st.op != 1 then [Binary(block, st.fin)] else if received == st.len && st.fin then [Text(block)] else [])
  }

  /** A header is due, and cut by the end of the read. */
  predicate HeaderCut(st: State, buf: seq<bv8>) { st.len == 0 && (|buf| < 2 || |buf| < HeaderLen(buf)) }

  /** Where the block of this turn starts, and the header it belongs to. */
  function Offset(st: State, buf: seq<bv8>): (n: nat)
    requires buf != [] && !HeaderCut(st, buf)
    ensures n <= |buf| && (st.len == 0 ==> n >= 2)
  {
    if st.len == 0 then HeaderLen(buf) else 0
  }

  function Current(st: State, buf: seq<bv8>): (cur: State)
    requires Valid(st) && buf != [] && !HeaderCut(st, buf)
    ensures cur.received <= cur.len && (st.len > 0 ==> cur.received < cur.len)
  {
    if st.len == 0 then ParseHeader(st, buf) else st
  }

  /** The do-while loop over one read. */
  function Read(st: State, buf: seq<bv8>): Result
    requires Valid(st)
    decreases |buf|
  {
    if buf == [] then Done(st, [])
    else if HeaderCut(st, buf) then Beyond
    else
      var (offset, cur) := (Offset(st, buf), Current(st, buf));
      if cur.op > 2 then Control
      else
        var block := Block(cur, buf[offset..]);
        if TextCut(cur, block) then Beyond
        else Prepend(Deliver(cur, block).1, Read(Deliver(cur, block).0, buf[offset + |block|..]))
  }

  function Prepend(before: seq<Event>, r: Result): Result { if r.Done? then Done(r.st, before + r.events) else r }

  // ----- every frame is read back -----

  predicate WellFormed(f: Frame) { f.op <= 2 && |f.payload| < TWO_32 }

  lemma SecondByteIsReadBack(n: nat, masked: bool)
    requires n <= 127
    ensures var b := SecondByte(masked, Byte(n)); PLoad(b) == n && (TopBit(b) <==> masked)
  {
    var x := Byte(n);
    assert x < 0x80;
    hide Byte;
    SevenBits(x);
  }

  lemma SevenBits(x: bv8)
    requires x < 0x80
    ensures (0x80 | x) & 0x7f == x && (0 | x) & 0x7f == x && (0x80 | x) & 0x80 == 0x80 && (0 | x) & 0x80 == 0
  {
  }

  lemma FirstByteIsReadBack(op: bv8, fin: bool)
    requires op <= 2
    ensures var b := FirstByte(fin, op); OpCode(b) == op && (TopBit(b) <==> fin)
  {
  }

  lemma ExtRoundTrip(n: nat)
    requires n < TWO_32
    ensures |ExtLen(n)| == ExtBytes(Len7(n)) && (n > 125 ==> FromNet(ExtLen(n)) == n)
  {
    assert Pow256(2) == 65536;
    assert Pow256(4) == TWO_32 && Pow256(5) == 256 * TWO_32 && Pow256(6) == 65536 * TWO_32;
    assert Pow256(7) == 256 * Pow256(6) && Pow256(8) == 256 * Pow256(7);
    NetRoundTrip(n, if n <= 65535 && n > 125 then 2 else 8);
  }

  /** The reader takes from the front of the wire exactly the header the frame was given. */
  lemma HeaderIsReadBack(f: Frame, key: Key, rest: seq<bv8>)
    requires WellFormed(f)
    ensures var buf := HeaderOf(f) + rest;
            && |buf| >= 2 && HeaderLen(buf) == |HeaderOf(f)| <= |buf|
            && ParseHeader(IDLE.(key := key), buf) ==
               State(f.op, f.fin, f.key.Some?, |f.payload|, if f.key.Some? then f.key.value else key, 0)
  {
    var (n, key') := (|f.payload|, if f.key.Some? then f.key.value else []);
    var (b0, b1) := (FirstByte(f.fin, f.op), SecondByte(f.key.Some?, Byte(Len7(n))));
    assert HeaderOf(f) == [b0, b1] + ExtLen(n) + key';
    assert n <= 125 ==> Len7(n) == n;
    hide ExtLen, Byte, FromNet, HeaderOf, FirstByte, SecondByte, OpCode, PLoad, TopBit, HeaderLen, ParseHeader;
    FirstByteIsReadBack(f.op, f.fin);
    SecondByteIsReadBack(Len7(n), f.key.Some?);
    ExtRoundTrip(n);
    Pieces(b0, b1, ExtLen(n), key', rest);
    ParsePieces(HeaderOf(f) + rest, ExtLen(n), f.key, key, n);
  }

  lemma ParsePieces(buf: seq<bv8>, ext: seq<bv8>, sent: Option<Key>, key: Key, n: nat)
    requires |buf| >= 2 + |ext| + (if sent.Some? then 4 else 0) && PLoad(buf[1]) == Len7(n)
             && TopBit(buf[1]) == sent.Some?
    requires |ext| == ExtBytes(Len7(n)) && buf[2..2 + |ext|] == ext && (n > 125 ==> FromNet(ext) == n)
    requires sent.Some? ==> buf[2 + |ext|..2 + |ext| + 4] == sent.value
    ensures HeaderLen(buf) == 2 + |ext| + (if sent.Some? then 4 else 0)
    ensures ParseHeader(IDLE.(key := key), buf) ==
            State(OpCode(buf[0]), TopBit(buf[0]), sent.Some?, n, if sent.Some? then sent.value else key, 0)
  {
    hide FromNet, OpCode, PLoad, TopBit;
  }

  lemma Pieces(b0: bv8, b1: bv8, ext: seq<bv8>, key: seq<bv8>, rest: seq<bv8>)
    ensures var (buf, k) := ([b0, b1] + ext + key + rest, 2 + |ext|);
            buf[0] == b0 && buf[1] == b1 && buf[2..k] == ext && buf[k..k + |key|] == key
  {
  }

  function Events(f: Frame): seq<Event> {
    if f.op != 1 then [Binary(f.payload, f.fin)] else if f.fin then [Text(f.payload)] else []
  }

  /** The key the reader holds after the frame. */
  function KeyAfter(f: Frame, key: Key): Key { if f.key.Some? then f.key.value else key }

  lemma FrameIsRead(f: Frame, key: Key, rest: seq<bv8>)
    requires WellFormed(f)
    ensures var (all, then_) := (Read(IDLE.(key := key), Encode(f) + rest), Read(IDLE.(key := KeyAfter(f, key)), rest));
            all == if then_.Done? then Done(then_.st, Events(f) + then_.events) else then_
  {
    var buf := Encode(f) + rest;
    HeaderIsReadBack(f, key, OnWire(f) + rest);
    Associate(HeaderOf(f), OnWire(f), rest);
    var (h, w) := (HeaderOf(f), OnWire(f));
    assert buf == h + (w + rest) && buf[|h|..] == w + rest && (w + rest)[..|w|] == w && buf[|h| + |w|..] == rest;
    if f.key.Some? { MaskTwice(f.payload, f.key.value, 0); }
    hide HeaderOf, ParseHeader, HeaderLen, Masked;
    var cur := State(f.op, f.fin, f.key.Some?, |f.payload|, KeyAfter(f, key), 0);
    assert Block(cur, w + rest) == f.payload;
  }

  function EncodeAll(fs: seq<Frame>): seq<bv8> { if fs == [] then [] else Encode(fs[0]) + EncodeAll(fs[1..]) }

  function EventsAll(fs: seq<Frame>): seq<Event> { if fs == [] then [] else Events(fs[0]) + EventsAll(fs[1..]) }

  function KeyAfterAll(fs: seq<Frame>, key: Key): Key {
    if fs == [] then key else KeyAfterAll(fs[1..], KeyAfter(fs[0], key))
  }

  /** A read that holds whole frames delivers them in order, unmasked, whatever length encodings they use,
      and leaves the reader waiting for a header.  A text frame without FIN delivers nothing. */
  lemma {:induction false} FramesAreRead(fs: seq<Frame>, key: Key)
    requires forall i :: 0 <= i < |fs| ==> WellFormed(fs[i])
    ensures Read(IDLE.(key := key), EncodeAll(fs)) == Done(IDLE.(key := KeyAfterAll(fs, key)), EventsAll(fs))
    decreases |fs|
  {
    if fs != [] {
      FrameIsRead(fs[0], key, EncodeAll(fs[1..]));
      hide Read, Encode, Events;
      FramesAreRead(fs[1..], KeyAfter(fs[0], key));
    }
  }

  /** What the events carry. */
  function Body(events: seq<Event>): seq<bv8> { if events == [] then [] else events[0].data + Body(events[1..]) }

  function Payloads(fs: seq<Frame>): seq<bv8> { if fs == [] then [] else fs[0].payload + Payloads(fs[1..]) }

  /** The first part of a fragmented text message (section 5.4 of RFC 6455). */
  predicate TextPart(f: Frame) { f.op == 1 && !f.fin }

  predicate NoneLost(fs: seq<Frame>) { forall i :: 0 <= i < |fs| && TextPart(fs[i]) ==> fs[i].payload == [] }

  lemma FirstEvents(fs: seq<Frame>)
    requires fs != []
    ensures Body(EventsAll(fs)) == (if TextPart(fs[0]) then [] else fs[0].payload) + Body(EventsAll(fs[1..]))
    ensures Payloads(fs) == fs[0].payload + Payloads(fs[1..])
  {
    var rest := EventsAll(fs[1..]);
    if TextPart(fs[0]) {
      assert [] + rest == rest && [] + Body(rest) == Body(rest);
    } else {
      assert (Events(fs[0]) + rest)[1..] == rest;
    }
  }

  lemma {:induction false} NothingAdded(fs: seq<Frame>)
    ensures |Body(EventsAll(fs))| <= |Payloads(fs)|
    decreases |fs|
  {
    if fs != [] {
      FirstEvents(fs);
      NothingAdded(fs[1..]);
    }
  }

  /** The payloads of whole frames all arrive exactly when no text frame without FIN carries anything. */
  lemma {:induction false} PayloadsArriveIff(fs: seq<Frame>)
    ensures Body(EventsAll(fs)) == Payloads(fs) <==> NoneLost(fs)
    decreases |fs|
  {
    if fs != [] {
      var (f, rest) := (fs[0], fs[1..]);
      FirstEvents(fs);
      NothingAdded(rest);
      hide EventsAll, Body, Payloads, TextPart;
      PayloadsArriveIff(rest);
      assert NoneLost(fs) <==> (TextPart(f) ==> f.payload == []) && NoneLost(rest) by {
        assert forall i :: 0 < i < |fs| ==> fs[i] == rest[i - 1];
        assert forall i :: 0 <= i < |rest| ==> rest[i] == fs[i + 1];
      }
      SameRest(f.payload, Body(EventsAll(rest)), Payloads(rest));
    }
  }

  lemma SameRest(p: seq<bv8>, a: seq<bv8>, b: seq<bv8>)
    requires |a| <= |b|
    ensures p + a == p + b <==> a == b
    ensures p != [] ==> [] + a != p + b
    ensures [] + a == a && [] + b == b
  {
    if p + a == p + b { assert a == (p + a)[|p|..] && b == (p + b)[|p|..]; }
    assert |p + b| == |p| + |b|;
  }

  /** A text message in two frames: the first part is lost, the second arrives as binary data. */
  lemma FragmentedTextIsLost(key: Key, p: seq<bv8>, q: seq<bv8>)
    requires |p| < TWO_32 && |q| < TWO_32
    ensures var fs := [Frame(1, false, None, p), Frame(0, true, None, q)];
            Read(IDLE.(key := key), EncodeAll(fs)) == Done(IDLE.(key := key), [Binary(q, true)])
  {
    var (f, g) := (Frame(1, false, None, p), Frame(0, true, None, q));
    FramesAreRead([f, g], key);
    assert [f, g][1..] == [g] && [g][1..] == [];
    assert EventsAll([f, g]) == Events(f) + EventsAll([g]) && EventsAll([g]) == Events(g) + EventsAll([]);
    assert [] + ([Binary(q, true)] + []) == [Binary(q, true)];
    assert KeyAfterAll([f, g], key) == KeyAfterAll([g], key) == key;
  }

  // ----- a binary frame split over reads -----

  function ReadAll(st: State, inputs: seq<seq<bv8>>): Result
    requires Valid(st)
    decreases |inputs|
  {
    if inputs == [] then Done(st, [])
    else
      var first := Read(st, inputs[0]);
      if !first.Done? || !Valid(first.st) then first
      else
        var rest := ReadAll(first.st, inputs[1..]);
        if rest.Done? then Done(rest.st, first.events + rest.events) else rest
  }

  function Flat(parts: seq<seq<bv8>>): seq<bv8> { if parts == [] then [] else parts[0] + Flat(parts[1..]) }

  /** Every block is unmasked from the start of the key, and flagged as the last one if the frame is final. */
  function Blocks(parts: seq<seq<bv8>>, f: Frame): seq<Event> {
    if parts == [] then []
    else [Binary(if f.key.Some? then Masked(parts[0], f.key.value, 0) else parts[0], f.fin)] + Blocks(parts[1..], f)
  }

  predicate NoneEmpty(parts: seq<seq<bv8>>) { forall i :: 0 <= i < |parts| ==> parts[i] != [] }

  function Inside(f: Frame, key: Key, received: nat): State {
    State(f.op, f.fin, f.key.Some?, |f.payload|, KeyAfter(f, key), received)
  }

  lemma OneBlock(f: Frame, key: Key, received: nat, part: seq<bv8>)
    requires WellFormed(f) && f.op != 1 && part != [] && received + |part| <= |f.payload|
    ensures var st := if received + |part| == |f.payload| then IDLE.(key := KeyAfter(f, key))
            else Inside(f, key, received + |part|);
            Read(Inside(f, key, received), part) == Done(st, Blocks([part], f))
  {
    var cur := Inside(f, key, received);
    assert part[0..] == part && part[..|part|] == part && part[|part|..] == [];
    assert |Block(cur, part)| == |part|;
    assert Blocks([part], f) == [Binary(Block(cur, part), f.fin)];
  }

  lemma FirstPart(parts: seq<seq<bv8>>, f: Frame)
    requires parts != []
    ensures Blocks(parts, f) == Blocks([parts[0]], f) + Blocks(parts[1..], f)
    ensures |Flat(parts)| == |parts[0]| + |Flat(parts[1..])|
  {
    hide Masked;
    assert [parts[0]][1..] == [];
  }

  lemma NothingLeft(parts: seq<seq<bv8>>)
    requires NoneEmpty(parts) && |Flat(parts)| == 0
    ensures parts == []
  {
  }

  lemma {:induction false} SplitTail(f: Frame, key: Key, received: nat, parts: seq<seq<bv8>>)
    requires WellFormed(f) && f.op != 1 && NoneEmpty(parts) && received < |f.payload|
    requires received + |Flat(parts)| == |f.payload|
    ensures ReadAll(Inside(f, key, received), parts) == Done(IDLE.(key := KeyAfter(f, key)), Blocks(parts, f))
    decreases |parts|
  {
    assert Flat([]) == [];
    FirstPart(parts, f);
    hide Read, Blocks, Flat;
    OneBlock(f, key, received, parts[0]);
    if received + |parts[0]| == |f.payload| {
      NothingLeft(parts[1..]);
      NoBlocks(f);
    } else {
      SplitTail(f, key, received + |parts[0]|, parts[1..]);
    }
  }

  lemma NoBlocks(f: Frame)
    ensures Blocks([], f) == []
  {
  }

  /** A binary or continuation frame whose header came in the first read and whose payload is split
      anyhow: one block is delivered for every read, and the reader waits for a header at the end. */
  lemma SplitIsRead(f: Frame, key: Key, parts: seq<seq<bv8>>)
    requires WellFormed(f) && f.op != 1 && parts != [] && NoneEmpty(parts[1..]) && Flat(parts) == OnWire(f)
    ensures ReadAll(IDLE.(key := key), [HeaderOf(f) + parts[0]] + parts[1..]) ==
            Done(IDLE.(key := KeyAfter(f, key)), Blocks(parts, f))
  {
    var (first, inputs) := (parts[0], [HeaderOf(f) + parts[0]] + parts[1..]);
    assert inputs[1..] == parts[1..] && |first| + |Flat(parts[1..])| == |f.payload|;
    FirstPart(parts, f);
    assert Valid(IDLE.(key := key));
    hide HeaderOf, Read, Blocks, Flat, OnWire;
    FirstRead(f, key, first);
    if |first| == |f.payload| {
      NothingLeft(parts[1..]);
      NoBlocks(f);
    } else {
      SplitTail(f, key, |first|, parts[1..]);
    }
  }

  lemma FirstRead(f: Frame, key: Key, first: seq<bv8>)
    requires WellFormed(f) && f.op != 1 && |first| <= |f.payload|
    ensures var st := if |first| == |f.payload| then IDLE.(key := KeyAfter(f, key)) else Inside(f, key, |first|);
            Read(IDLE.(key := key), HeaderOf(f) + first) == Done(st, Blocks([first], f))
  {
    var (h, cur) := (HeaderOf(f), Inside(f, key, 0));
    var buf := h + first;
    HeaderIsReadBack(f, key, first);
    assert buf[|h|..] == first && first[..|first|] == first && buf[|h| + |first|..] == [];
    hide HeaderOf, HeaderLen, ParseHeader;
    assert Blocks([first], f) == [Binary(Block(cur, first), f.fin)];
  }

  predicate SameKeyByte(key: Key, at: nat, j: nat) { KeyAt(key, at + j) == KeyAt(key, j) }

  /** The key repeats at every block start: checked on the key and the block lengths alone. */
  predicate Repeats(parts: seq<seq<bv8>>, key: Key, at: nat) {
    parts == [] || ((forall j :: 0 <= j < |parts[0]| ==> SameKeyByte(key, at, j))
      && Repeats(parts[1..], key, at + |parts[0]|))
  }

  /** Every block that carries anything starts at a multiple of four. */
  predicate OnBoundary(parts: seq<seq<bv8>>, at: nat) {
    parts == [] || ((parts[0] != [] ==> at % 4 == 0) && OnBoundary(parts[1..], at + |parts[0]|))
  }

  lemma UnmaskedWrongIff(data: seq<bv8>, key: Key, at: nat)
    ensures Masked(Masked(data, key, at), key, 0) == data <==> forall j :: 0 <= j < |data| ==> SameKeyByte(key, at, j)
  {
    var (once, m) := (Masked(data, key, at), Masked(Masked(data, key, at), key, 0));
    forall j | 0 <= j < |data| ensures m[j] == data[j] <==> SameKeyByte(key, at, j) {
      hide Xor, KeyAt;
      assert m[j] == Xor(Xor(data[j], KeyAt(key, at + j)), KeyAt(key, 0 + j));
      XorBack(data[j], KeyAt(key, at + j), KeyAt(key, j));
    }
    hide *;
  }

  lemma XorBack(x: bv8, a: bv8, b: bv8)
    ensures Xor(Xor(x, a), b) == x <==> a == b
  {
    assert x ^ a ^ b ^ x == a ^ b;
    assert x ^ x == 0 && (a ^ b == 0 <==> a == b);
  }

  lemma MaskedParts(p: seq<bv8>, q: seq<bv8>, key: Key, at: nat)
    ensures Masked(p + q, key, at) == Masked(p, key, at) + Masked(q, key, at + |p|)
  {
  }

  lemma {:induction false} BodyIff(parts: seq<seq<bv8>>, f: Frame, payload: seq<bv8>, at: nat)
    requires f.key.Some? && Flat(parts) == Masked(payload, f.key.value, at)
    ensures Body(Blocks(parts, f)) == payload <==> Repeats(parts, f.key.value, at)
    decreases |parts|
  {
    hide *;
    if parts == [] {
      NoBody(f, payload, at);
    } else {
      var (key, rest) := (f.key.value, parts[1..]);
      var pq := BodyHalves(parts, key, payload, at);
      BodyOfParts(parts, f);
      BodyIff(rest, f, pq.1, at + |parts[0]|);
      FirstBlockIff(parts, pq.0, key, at);
      SameHalvesIff(Masked(parts[0], key, 0), Body(Blocks(rest, f)), pq.0, pq.1);
    }
  }

  lemma NoBody(f: Frame, payload: seq<bv8>, at: nat)
    requires f.key.Some? && Flat([]) == Masked(payload, f.key.value, at)
    ensures Body(Blocks([], f)) == payload && Repeats([], f.key.value, at)
  {
  }

  /** The first block comes out right exactly when the key repeats where it starts. */
  lemma FirstBlockIff(parts: seq<seq<bv8>>, p: seq<bv8>, key: Key, at: nat)
    requires parts != [] && parts[0] == Masked(p, key, at)
    ensures Repeats(parts, key, at) <==> Masked(parts[0], key, 0) == p && Repeats(parts[1..], key, at + |parts[0]|)
    ensures |Masked(parts[0], key, 0)| == |p|
  {
    UnmaskedWrongIff(p, key, at);
    RepeatsParts(parts, key, at);
    hide *;
  }

  /** The payload cut where the first block ends. */
  lemma BodyHalves(parts: seq<seq<bv8>>, key: Key, payload: seq<bv8>, at: nat) returns (pq: (seq<bv8>, seq<bv8>))
    requires parts != [] && Flat(parts) == Masked(payload, key, at)
    ensures payload == pq.0 + pq.1 && parts[0] == Masked(pq.0, key, at)
            && Flat(parts[1..]) == Masked(pq.1, key, at + |parts[0]|)
  {
    var n := |parts[0]|;
    pq := (payload[..n], payload[n..]);
    MaskedParts(pq.0, pq.1, key, at);
    assert payload == pq.0 + pq.1;
    hide Masked;
    SameHalves(Masked(pq.0, key, at), Masked(pq.1, key, at + n), parts[0], Flat(parts[1..]));
  }

  lemma BodyOfParts(parts: seq<seq<bv8>>, f: Frame)
    requires parts != [] && f.key.Some?
    ensures Flat(parts) == parts[0] + Flat(parts[1..])
    ensures Body(Blocks(parts, f)) == Masked(parts[0], f.key.value, 0) + Body(Blocks(parts[1..], f))
  {
    hide Masked;
    assert Blocks(parts, f)[1..] == Blocks(parts[1..], f);
  }

  lemma RepeatsParts(parts: seq<seq<bv8>>, key: Key, at: nat)
    requires parts != []
    ensures Repeats(parts, key, at) <==>
            (forall j :: 0 <= j < |parts[0]| ==> SameKeyByte(key, at, j)) && Repeats(parts[1..], key, at + |parts[0]|)
  {
    hide SameKeyByte;
  }

  lemma SameHalves(a: seq<bv8>, b: seq<bv8>, c: seq<bv8>, d: seq<bv8>)
    requires |a| == |c| && a + b == c + d
    ensures a == c && b == d
  {
    assert a == (a + b)[..|a|] && c == (c + d)[..|c|] && b == (a + b)[|a|..] && d == (c + d)[|c|..];
  }

  lemma SameHalvesIff(a: seq<bv8>, b: seq<bv8>, c: seq<bv8>, d: seq<bv8>)
    requires |a| == |c|
    ensures a + b == c + d <==> a == c && b == d
  {
    if a + b == c + d { SameHalves(a, b, c, d); }
  }

  /** Split over reads, the blocks of a frame concatenate to its payload exactly when it is unmasked or
      the key happens to repeat at every block start. */
  lemma SplitPayloadIff(f: Frame, key: Key, parts: seq<seq<bv8>>)
    requires WellFormed(f) && f.op != 1 && parts != [] && NoneEmpty(parts[1..]) && Flat(parts) == OnWire(f)
    ensures var r := ReadAll(IDLE.(key := key), [HeaderOf(f) + parts[0]] + parts[1..]);
            r.Done? && (Body(r.events) == f.payload <==> f.key.None? || Repeats(parts, f.key.value, 0))
  {
    SplitIsRead(f, key, parts);
    if f.key.Some? { BodyIff(parts, f, f.payload, 0); } else { BodyUnmasked(parts, f); }
  }

  lemma {:induction false} BodyUnmasked(parts: seq<seq<bv8>>, f: Frame)
    requires f.key.None?
    ensures Body(Blocks(parts, f)) == Flat(parts)
    decreases |parts|
  {
    if parts != [] {
      assert Blocks(parts, f)[1..] == Blocks(parts[1..], f);
      BodyUnmasked(parts[1..], f);
    }
  }

  ghost predicate EveryKey(parts: seq<seq<bv8>>, at: nat) { forall key: Key :: Repeats(parts, key, at) }

  /** For every key, that is, exactly when every block starts at a multiple of four. */
  lemma {:induction false} EveryKeyIff(parts: seq<seq<bv8>>, at: nat)
    ensures EveryKey(parts, at) <==> OnBoundary(parts, at)
    decreases |parts|
  {
    if parts != [] {
      var (first, rest, n) := (parts[0], parts[1..], at + |parts[0]|);
      EveryKeyIff(rest, n);
      var distinct: Key := [0, 1, 2, 3];
      if first != [] && at % 4 != 0 {
        assert !SameKeyByte(distinct, at, 0);
        assert !Repeats(parts, distinct, at);
      } else if EveryKey(parts, at) {
        forall key: Key ensures Repeats(rest, key, n) { assert Repeats(parts, key, at); }
      } else if OnBoundary(parts, at) {
        forall key: Key ensures Repeats(parts, key, at) { assert Repeats(rest, key, n); }
      }
    }
  }

  // ----- the code -----

  lemma PrependTwice(before: seq<Event>, now: seq<Event>, r: Result)
    ensures Prepend(before, Prepend(now, r)) == Prepend(before + now, r)
  {
    if r.Done? { assert before + (now + r.events) == before + now + r.events; }
  }

  lemma NotDone(before: seq<Event>, all: Result, delivered: seq<Event>, rest: Result)
    requires Prepend(before, all) == Prepend(delivered, rest) && !rest.Done?
    ensures !all.Done?
  {
  }

  lemma AllRead(before: seq<Event>, all: Result, delivered: seq<Event>, st: State, buf: seq<bv8>)
    requires Valid(st) && buf == [] && Prepend(before, all) == Prepend(delivered, Read(st, buf))
    ensures all.Done? && Prepend(before, all) == Done(st, delivered)
  {
  }

  class Reader {
    var param: State
    var delivered: seq<Event>

    /** One read.  The payload is unmasked where it lies.  The result says whether the model covers the read. */
    method OnDataReceived(pData: array<bv8>) returns (covered: bool)
      requires Valid(param)
      modifies this, pData
      ensures covered <==> Read(old(param), old(pData[..])).Done?
      ensures covered ==> Done(param, delivered) == Prepend(old(delivered), Read(old(param), old(pData[..])))
      ensures covered ==> Valid(param)
    {
      ghost var was := pData[..];
      ghost var (st0, before) := (param, delivered);
      var at: nat := 0;
      assert was[0..] == was && Prepend(before, Read(param, was)) == Prepend(delivered, Read(param, pData[at..]));
      hide Read, Prepend;
      while at < pData.Length
        invariant at <= pData.Length && Valid(param)
        invariant Prepend(before, Read(st0, was)) == Prepend(delivered, Read(param, pData[at..]))
        decreases pData.Length - at
      {
        ghost var rest := Read(param, pData[at..]);
        ghost var delivered0 := delivered;
        var ok, now := OneTurn(pData, at);
        if !ok {
          NotDone(before, Read(st0, was), delivered0, rest);
          return false;
        }
        PrependTwice(delivered0, now.1, Read(param, pData[now.0..]));
        at := now.0;
      }
      AllRead(before, Read(st0, was), delivered, param, pData[at..]);
      return true;
    }

    /** One turn of the loop: a header if one is due, then a block. */
    method OneTurn(pData: array<bv8>, at: nat) returns (covered: bool, next: (nat, seq<Event>))
      requires Valid(param) && at < pData.Length
      modifies this, pData
      ensures !covered ==> !Read(old(param), old(pData[at..])).Done?
      ensures covered ==> Valid(param) && at < next.0 <= pData.Length && delivered == old(delivered) + next.1
      ensures covered ==> Read(old(param), old(pData[at..])) == Prepend(next.1, Read(param, pData[next.0..]))
    {
      var buf := pData[at..];
      next := (at, []);
      if HeaderCut(param, buf) { return false, next; }
      hide HeaderCut, Current, Block, Deliver, TextCut, Offset, Prepend;
      var offset := Offset(param, buf);
      var cur := Current(param, buf);
      if cur.op > 2 { return false, next; }
      assert pData[at + offset..] == buf[offset..];
      covered, next := TakeBlock(pData, at + offset, cur, buf, offset);
    }

    method TakeBlock(pData: array<bv8>, at: nat, cur: State, ghost buf: seq<bv8>, ghost offset: nat)
      returns (covered: bool, next: (nat, seq<Event>))
      requires cur.received <= cur.len && cur.op <= 2 && offset <= |buf|
      requires at <= pData.Length && pData[at..] == buf[offset..]
      modifies this, pData
      ensures var block := Block(cur, buf[offset..]);
              && offset + |block| <= |buf|
              && (covered <==> !TextCut(cur, block))
              && (covered ==>
                    && next == (at + |block|, Deliver(cur, block).1) && param == Deliver(cur, block).0
                      && next.0 <= pData.Length
                    && delivered == old(delivered) + next.1 && pData[next.0..] == buf[offset + |block|..])
    {
      hide Masked, Deliver, TextCut;
      var block := Unmask(pData, at, cur);
      assert buf[offset + |block|..] == buf[offset..][|block|..];
      next := (at, []);
      if TextCut(cur, block) { return false, next; }
      var (st', now) := Deliver(cur, block);
      param := st';
      delivered := delivered + now;
      return true, (at + |block|, now);
    }

    /** The unmasking loop over one block. */
    method Unmask(pData: array<bv8>, at: nat, cur: State) returns (block: seq<bv8>)
      requires at <= pData.Length && cur.received <= cur.len
      modifies pData
      ensures block == Block(cur, old(pData[at..])) && at + |block| <= pData.Length
      ensures pData[at..at + |block|] == block && pData[at + |block|..] == old(pData[at..])[|block|..]
    {
      var n := Least(cur.len - cur.received, pData.Length - at);
      ghost var data := pData[at..];
      hide Xor, KeyAt;
      if cur.mask {
        for k := 0 to n
          invariant forall j :: 0 <= j < k ==> pData[at + j] == Xor(data[j], KeyAt(cur.key, j))
          invariant forall j :: at + k <= j < pData.Length ==> pData[j] == data[j - at]
        {
          pData[at + k] := Xor(pData[at + k], KeyAt(cur.key, k));
        }
      }
      block := pData[at..at + n];
    }

    /** WriteData: the frame of a text message, built in an array of its own.  The size of the array is a
        32-bit sum; `fits` says that header and payload end inside it.  Where it wraps, the copy runs past
        the end, and nothing is said about the bytes. */
    method WriteData(szData: seq<bv8>) returns (spOutput: array<bv8>, fits: bool)
      requires |szData| < TWO_32
      ensures fits <==> |szData| < TWO_32 - 10
      ensures fresh(spOutput) && spOutput.Length == Sum32(|szData|, |HeaderOf(TextFrame(szData))|)
      ensures fits ==> spOutput[..] == Encode(TextFrame(szData))
    {
      var n := |szData|;
      var iHeaderLen := 2;
      if n > 125 { iHeaderLen := iHeaderLen + 2; }
      if n > 65535 { iHeaderLen := iHeaderLen + 6; }
      TextHeader(szData);
      SumFits(n, iHeaderLen);
      hide HeaderOf, ExtLen, ToNet, OnWire, Sum32, Encode, TextFrame;
      spOutput := new bv8[Sum32(n, iHeaderLen)](i => 0);
      fits := n + iHeaderLen <= spOutput.Length;
      if fits {
        PutHeader(spOutput, n, iHeaderLen);
        Put(spOutput, iHeaderLen, szData);
      }
    }

    /** FIN, OpCode, PLoad and the longer length, into a fresh array. */
    method PutHeader(a: array<bv8>, n: nat, iHeaderLen: nat)
      requires n < TWO_32 && iHeaderLen == 2 + |ExtLen(n)| ==
               (if n <= 125 then 2 else if n <= 65535 then 4 else 10) <= a.Length
      modifies a
      ensures a[..iHeaderLen] == [0x81, Byte(Len7(n))] + ExtLen(n)
    {
      a[0] := 0x81;
      a[1] := Byte(if iHeaderLen > 2 then (if iHeaderLen == 10 then 127 else 126) else n);
      hide ToNet;
      if iHeaderLen > 2 { Put(a, 2, if iHeaderLen == 10 then ToNet(n, 8) else ToNet(n, 2)); }
    }

    method Put(a: array<bv8>, at: nat, b: seq<bv8>)
      requires at + |b| <= a.Length
      modifies a
      ensures a[..] == old(a[..at]) + b + old(a[at + |b|..])
    {
      forall k | 0 <= k < |b| { a[at + k] := b[k]; }
    }
  }
}
