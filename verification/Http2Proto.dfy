/** The receive side of HTTP/2: what one frame does to a connection.

`ProcessFrame` follows the switch of Http2StreamProto case by case.  The HPACK decoder is a
parameter: any function from a header block, the dynamic table and the fields already known to
either the new table and fields or the exception it raises.
*/
module Http2Proto {
  import opened Http2Frame

  // ----- constants -----

  predicate Bit(flag: byte, mask: nat) requires mask > 0 { (flag / mask) % 2 == 1 }

  predicate EndOfStream(f: Frame) { Bit(f.hdr.flag, 0x1) }
  predicate EndOfHeader(f: Frame) { Bit(f.hdr.flag, 0x4) }
  predicate Padded(f: Frame) { Bit(f.hdr.flag, 0x8) }
  predicate Priority(f: Frame) { Bit(f.hdr.flag, 0x20) }
  predicate Ack(f: Frame) { Bit(f.hdr.flag, 0x1) }

  const MAX_WINDOW: int := 0x7fff_ffff
  /** What `h2f.size--` leaves behind on an empty payload (a 64-bit unsigned long). */
  const WRAPPED_SIZE: nat := 0xffff_ffff_ffff_ffff

  // ----- state -----

  type Fields = seq<(string, string)>
  type DynTable = seq<(nat, string, string)>

  datatype Settings = Settings(maxStreams: nat, initWindow: int, maxFrame: nat, maxHeaderList: nat, tableSize: nat)

  /** An entry of a request body queue: a data block, or the null end marker. */
  datatype Item = Block(data: seq<byte>) | EndMark

  /** The five state bits are the booleans.  `pushed` and `taken` are what was ever put in the body queue
      and what the actions took out of it, which only the properties read. */
  datatype Stream = Stream(
    headerReceived: bool, streamEnd: bool, headerEnd: bool, reset: bool, actionCalled: bool,
    fragments: seq<seq<byte>>, fields: Fields, contentLength: nat, contentReceived: nat, window: int,
    queue: seq<Item>, pushed: seq<Item>, taken: seq<Item>)

  datatype Out =
    | OutWindowUpdate(id: nat, n: nat)
    | OutSettingsAck
    | OutPingAck(payload: seq<byte>)
    | OutReset(id: nat, code: nat)
    | OutGoaway(last: nat, code: nat)
    | OutInterim(id: nat, status: nat)

  /** `called` lists the streams queued for their action, `out` the frames written. */
  datatype Conn = Conn(streams: map<nat, Stream>, settings: Settings, dyn: DynTable, called: seq<nat>, out: seq<Out>)

  datatype Code =
    | PROTOCOL_ERROR | STREAM_CLOSED | HEADER_OTHER_STREAM | DATA_WITHOUT_STREAM | STREAM_HALF_CLOSED
    | MAX_FRAME_SIZE | FRAME_SIZE_VALUE | MISSING_STREAMID | WRONG_PAD_LENGTH | SAME_STREAMID
    | COMMON_DECODE_ERROR | HEADER_NO_STREAMEND | CONT_WITHOUT_HEADER | UNDEF_AFTER_HEADER | FRAME_SIZE_ERROR
    | STREAMID_MUST_NULL | INVALID_PUSH_SET | WINDOW_SIZE_SETTING | MAX_FRAME_SIZE_SET | WINDOW_SIZE_TO_HIGH
    | INVALID_WINDOW_SIZE | WRONG_STREAM_ID | WRONG_HEADER | DECODER_EXCEPTION

  datatype Fault = Fault(code: Code, id: nat)

  /** Http2DecodeHeader changes table and fields by reference, also when it raises an exception. */
  datatype Decoded =
    | Decoded(dyn: DynTable, fields: Fields)
    | Refused(fault: Fault, dyn: DynTable, fields: Fields)
  type Decoder = (seq<byte>, DynTable, Fields, Settings) -> Decoded

  /** Go: the next frame is parsed.  Closing: the connection ends in an orderly way.  Thrown: an
      exception left the loop, after `stripped` payload bytes were consumed.  Undefined: the source
      reads outside the payload. */
  datatype Outcome = Go(c: Conn) | Closing(c: Conn) | Thrown(c: Conn, fault: Fault, stripped: nat) | Undefined

  // ----- small helpers -----

  function NewStream(headerReceived: bool, headerEnd: bool, fields: Fields, window: int): Stream {
    Stream(headerReceived, false, headerEnd, false, false, [], fields, 0, 0, window, [], [], [])
  }

  function Put(c: Conn, id: nat, s: Stream): Conn { c.(streams := c.streams[id := s]) }

  function Push(s: Stream, i: Item): Stream { s.(queue := s.queue + [i], pushed := s.pushed + [i]) }

  function Emit(c: Conn, o: Out): Conn { c.(out := c.out + [o]) }

  predicate HeaderOpen(c: Conn) { 0 in c.streams && c.streams[0].headerReceived }

  function SetHeaderOpen(c: Conn, open: bool): Conn {
    if 0 in c.streams then Put(c, 0, c.streams[0].(headerReceived := open)) else c
  }

  /** The first field with that name, as HeadList::find returns it. */
  function Find(fields: Fields, name: string): (r: seq<string>)
    ensures |r| <= 1
  {
    if fields == [] then [] else if fields[0].0 == name then [fields[0].1] else Find(fields[1..], name)
  }

  predicate NonEmptyField(fields: Fields, name: string) {
    Find(fields, name) != [] && Find(fields, name)[0] != ""
  }

  /** fnHasExpectHeader */
  function AnswerExpect(c: Conn, id: nat, fields: Fields): Conn {
    var e := Find(fields, "expect");
    if e == [] then c else Emit(c, OutInterim(id, if e[0] == "100-continue" then 100 else 400))
  }

  /** The stream is complete: end marker, then the action. */
  function FinishRequest(c: Conn, id: nat, s: Stream): Conn {
    Put(c, id, Push(s, EndMark).(streamEnd := true, actionCalled := true)).(called := c.called + [id])
  }

  predicate Largest(m: nat, keys: set<nat>) { m in keys && forall k :: k in keys ==> k <= m }

  lemma HasMaxKey(keys: set<nat>)
    requires keys != {}
    ensures exists m :: Largest(m, keys)
  {
    var k :| k in keys;
    var (top, rest) := (k, keys - {k});
    if rest != {} {
      HasMaxKey(rest);
      var m :| Largest(m, rest);
      if k < m { top := m; }
    }
    forall j | j in keys ensures j <= top { if j != k { assert j in rest; } }
    assert Largest(top, keys);
  }

  function MaxKey(keys: set<nat>): nat
    requires keys != {}
  {
    HasMaxKey(keys);
    var m :| Largest(m, keys);
    m
  }

  // ----- DATA -----

  function PadLen(f: Frame): nat { if Padded(f) && f.payload != [] then f.payload[0] else 0 }
  function PadField(f: Frame): nat { if Padded(f) then 1 else 0 }
  /** The payload after the pad length field. */
  function Body(f: Frame): seq<byte> { if Padded(f) && f.payload != [] then f.payload[1..] else f.payload }
  function BodySize(f: Frame): nat { if Padded(f) && f.payload == [] then WRAPPED_SIZE else |Body(f)| }

  function OnData(c: Conn, f: Frame): Outcome {
    var id := f.hdr.streamId;
    if id !in c.streams || id == 0 || HeaderOpen(c) then Thrown(c, Fault(DATA_WITHOUT_STREAM, 0), PadField(f))
    else
      var s := c.streams[id];
      if s.streamEnd then Thrown(c, Fault(STREAM_CLOSED, id), PadField(f))
      else if s.reset then Thrown(c, Fault(STREAM_CLOSED, 0), PadField(f))
      else if BodySize(f) > c.settings.maxFrame then Thrown(c, Fault(MAX_FRAME_SIZE, id), PadField(f))
      else if BodySize(f) < PadLen(f) then Thrown(c, Fault(FRAME_SIZE_VALUE, id), PadField(f))
      else if Padded(f) && f.payload == [] then Undefined
      else
        var size := |Body(f)|;
        Go(AcceptData(c, id, Body(f)[..size - PadLen(f)], if size > 0 then size + PadField(f) else 0, EndOfStream(f)))
  }

  /** The credit is given back at once, the block is queued and the first block calls the action. */
  function AcceptData(c: Conn, id: nat, data: seq<byte>, credit: nat, endStream: bool): Conn
    requires id in c.streams
  {
    var s := c.streams[id];
    var c1 := if credit > 0 then c.(out := c.out + [OutWindowUpdate(0, credit), OutWindowUpdate(id, credit)]) else c;
    var s1 := Push(s, Block(data)).(contentReceived := s.contentReceived + |data|);
    var s2 := if endStream then Push(s1.(streamEnd := true), EndMark) else s1;
    var c2 := if endStream && s2.contentLength > 0 && s2.contentLength != s2.contentReceived
              then Emit(c1, OutReset(id, 1)) else c1;
    Put(c2, id, s2.(actionCalled := true)).(called := if s.actionCalled then c2.called else c2.called + [id])
  }

  // ----- HEADERS -----

  function Dependency(p: seq<byte>): nat requires |p| >= 4 { FromBe32(p) % TWO_31 }

  function OnHeaders(dec: Decoder, c: Conn, f: Frame): Outcome {
    var id := f.hdr.streamId;
    if id == 0 then Thrown(c, Fault(MISSING_STREAMID, 0), 0)
    else if BodySize(f) > c.settings.maxFrame then Thrown(c, Fault(FRAME_SIZE_ERROR, id), PadField(f))
    else if BodySize(f) < PadLen(f) then Thrown(c, Fault(WRONG_PAD_LENGTH, 0), PadField(f))
    else if Padded(f) && f.payload == [] then Undefined
    else if Priority(f) && |Body(f)| < 5 then Undefined
    else if Priority(f) && Dependency(Body(f)) == id then Thrown(c, Fault(SAME_STREAMID, id), PadField(f) + 5)
    else
      HeaderFragment(dec, c, id, if Priority(f) then Body(f)[5..] else Body(f),
        PadLen(f), EndOfHeader(f), EndOfStream(f),
                     PadField(f) + if Priority(f) then 5 else 0)
  }

  /** HEADERS after the optional fields: `rest` is the fragment and its padding. */
  function HeaderFragment(dec: Decoder, c: Conn, id: nat, rest: seq<byte>, padLen: nat, endHeader: bool,
      endStream: bool, stripped: nat): Outcome {
    var known := id in c.streams;
    if known && c.streams[id].streamEnd then Thrown(c, Fault(STREAM_CLOSED, id), stripped)
    else if known && c.streams[id].headerEnd && !endStream then Thrown(c, Fault(HEADER_NO_STREAMEND, 0), stripped)
    else if known && c.streams[id].reset then Thrown(c, Fault(STREAM_CLOSED, 0), stripped)
    else if known && !endHeader then Go(c)
    else if |rest| < padLen then Undefined
    else if endHeader then HeaderBlock(dec, c, id, rest[..|rest| - padLen], endStream, stripped)
    else Go(OpenBlock(c, id, rest[..|rest| - padLen], endStream))
  }

  /** The first fragment of a block that CONTINUATION frames will complete. */
  function OpenBlock(c: Conn, id: nat, fragment: seq<byte>, endStream: bool): Conn {
    var s := NewStream(true, false, [], c.settings.initWindow).(fragments := [fragment], streamEnd := endStream);
    SetHeaderOpen(Put(c, id, s), true)
  }

  /** A complete header block in one HEADERS frame. */
  function HeaderBlock(dec: Decoder, c: Conn, id: nat, block: seq<byte>, endStream: bool, stripped: nat): Outcome {
    var d := dec(block, c.dyn, if id in c.streams then c.streams[id].fields else [], c.settings);
    if d.Refused? then Thrown(c.(dyn := d.dyn), d.fault, stripped)
    else
      var c0 := c.(dyn := d.dyn);
      if id !in c.streams && exists k :: k in c.streams && k > id then Thrown(c0, Fault(PROTOCOL_ERROR, id), stripped)
      else
        var s := if id in c.streams then c.streams[id].(headerEnd := true, fields := d.fields)
                 else NewStream(false, true, d.fields, c.settings.initWindow);
        var c1 := SetHeaderOpen(Put(c0, id, s), false);
        if !NonEmptyField(d.fields, ":path") && !NonEmptyField(d.fields, ":status") then
          Thrown(c1, Fault(WRONG_HEADER, 0), stripped)
        else if endStream then
          if Find(d.fields, ":scheme") == [] then
            Thrown(Put(c1, id, s.(streamEnd := true)), Fault(WRONG_HEADER, 0), stripped)
          else Go(FinishRequest(c1, id, s))
        else Go(AnswerExpect(c1, id, d.fields))
  }

  // ----- CONTINUATION -----

  function Concat(parts: seq<seq<byte>>): seq<byte> {
    if parts == [] then [] else parts[0] + Concat(parts[1..])
  }

  function OnContinuation(dec: Decoder, c: Conn, f: Frame): Outcome {
    var id := f.hdr.streamId;
    if id !in c.streams || id == 0 then Thrown(c, Fault(MISSING_STREAMID, 0), 0)
    else
      var s := c.streams[id];
      if s.headerEnd then Thrown(c, Fault(PROTOCOL_ERROR, 0), 0)
      else if !s.headerReceived then Thrown(c, Fault(CONT_WITHOUT_HEADER, 0), 0)
      else if s.actionCalled then Thrown(c, Fault(STREAM_HALF_CLOSED, id), 0)
      else
        var s1 := s.(fragments := s.fragments + [f.payload]);
        if !EndOfHeader(f) then Go(Put(c, id, s1))
        else
          var d := dec(Concat(s1.fragments), c.dyn, s.fields, c.settings);
          if d.Refused? then Thrown(Put(c.(dyn := d.dyn), id, s1.(fields := d.fields)), d.fault, 0)
          else Go(CompleteBlock(c, id, s1, d, s.streamEnd || EndOfStream(f)))
  }

  /** The last fragment is there and the block is decoded. */
  function CompleteBlock(c: Conn, id: nat, s: Stream, d: Decoded, endStream: bool): Conn
    requires d.Decoded?
  {
    var s1 := s.(fragments := [], fields := d.fields, headerEnd := true, streamEnd := endStream);
    var c1 := SetHeaderOpen(Put(c.(dyn := d.dyn), id, s1), false);
    if endStream then FinishRequest(c1, id, s1) else AnswerExpect(c1, id, d.fields)
  }

  // ----- SETTINGS -----

  function Be16(p: seq<byte>): nat requires |p| >= 2 { p[0] as int * 0x100 + p[1] }

  /** static_cast<int32_t>(lValue - ulOldSize) */
  function WindowShift(v: nat, previous: int): int {
    var u := (v - previous) % TWO_32;
    if u < TWO_31 then u else u - TWO_32
  }

  function Shifted(s: Stream, delta: int): Stream { s.(window := s.window + delta) }

  function ShiftWindows(m: map<nat, Stream>, delta: int): map<nat, Stream> {
    map id | id in m :: if id != 0 then Shifted(m[id], delta) else m[id]
  }

  function ApplySetting(c: Conn, ident: nat, v: nat): Outcome {
    match ident
    case 1 => Go(c.(settings := c.settings.(tableSize := v)))
    case 2 => if v > 1 then Thrown(c, Fault(INVALID_PUSH_SET, 0), 0) else Go(c)
    case 3 => Go(c.(settings := c.settings.(maxStreams := v)))
    case 4 =>
      if v < MAX_WINDOW then
        Go(c.(settings := c.settings.(initWindow := v),
              streams := ShiftWindows(c.streams, WindowShift(v, c.settings.initWindow))))
      else Thrown(c, Fault(WINDOW_SIZE_SETTING, 0), 0)
    case 5 =>
      if 16384 <= v <= 16777215 then Go(c.(settings := c.settings.(maxFrame := v)))
      else Thrown(c, Fault(MAX_FRAME_SIZE_SET, 0), 0)
    case 6 => Go(c.(settings := c.settings.(maxHeaderList := v)))
    case _ => Go(c)
  }

  function ApplySettings(c: Conn, p: seq<byte>): (o: Outcome)
    requires |p| % 6 == 0
    ensures o.Go? || o.Thrown?
    decreases |p|
  {
    if p == [] then Go(c)
    else
      var o := ApplySetting(c, Be16(p), FromBe32(p[2..]));
      if o.Go? then ApplySettings(o.c, p[6..]) else o
  }

  function OnSettings(c: Conn, f: Frame): Outcome {
    if Ack(f) then if f.payload != [] then Thrown(c, Fault(FRAME_SIZE_ERROR, 0), 0) else Go(c)
    else if f.hdr.streamId != 0 then Thrown(c, Fault(STREAMID_MUST_NULL, 0), 0)
    else if |f.payload| % 6 != 0 then Thrown(c, Fault(FRAME_SIZE_ERROR, 0), 0)
    else
      var o := ApplySettings(c, f.payload);
      if o.Go? then Go(Emit(o.c, OutSettingsAck)) else o
  }

  // ----- the short frames -----

  function OnPriority(c: Conn, f: Frame): Outcome {
    if f.hdr.streamId == 0 then Thrown(c, Fault(MISSING_STREAMID, 0), 0)
    else if |f.payload| != 5 then Thrown(c, Fault(FRAME_SIZE_ERROR, 0), 0)
    else if HeaderOpen(c) then Thrown(c, Fault(PROTOCOL_ERROR, 0), 0)
    else if Dependency(f.payload) == f.hdr.streamId then Thrown(c, Fault(SAME_STREAMID, f.hdr.streamId), 0)
    else Go(c)
  }

  /** The queue is cleared unless the state has bit 0x1: the test uses the frame flag END_OF_STREAM,
      which as a state bit is HEADER_RECEIVED. */
  function OnReset(c: Conn, f: Frame): Outcome {
    var id := f.hdr.streamId;
    if |f.payload| != 4 then Thrown(c, Fault(FRAME_SIZE_ERROR, 0), 0)
    else if id !in c.streams || id == 0 then Thrown(c, Fault(MISSING_STREAMID, 0), 0)
    else
      var s := c.streams[id].(reset := true);
      Go(Put(c, id, if !s.headerReceived then s.(queue := []) else s))
  }

  function OnPing(c: Conn, f: Frame): Outcome {
    if Ack(f) then Go(c)
    else if f.hdr.streamId != 0 then Thrown(c, Fault(STREAMID_MUST_NULL, 0), 0)
    else if |f.payload| != 8 then Thrown(c, Fault(FRAME_SIZE_ERROR, 0), 0)
    else Go(Emit(c, OutPingAck(f.payload)))
  }

  function OnGoaway(c: Conn, f: Frame): Outcome {
    if f.hdr.streamId != 0 then Thrown(c, Fault(STREAMID_MUST_NULL, 0), 0)
    else if |f.payload| < 8 || c.streams.Keys == {} then Undefined
    else Closing(Emit(c, OutGoaway(MaxKey(c.streams.Keys), 0)))
  }

  function OnWindowUpdate(c: Conn, f: Frame): Outcome {
    var id := f.hdr.streamId;
    if |f.payload| != 4 then Thrown(c, Fault(FRAME_SIZE_ERROR, 0), 0)
    else
      var v := FromBe32(f.payload) % TWO_31;
      if id !in c.streams then Thrown(c, Fault(MISSING_STREAMID, 0), 0)
      else if v < 1 then Thrown(c, Fault(INVALID_WINDOW_SIZE, id), 0)
      else if c.streams[id].window + v > MAX_WINDOW then Thrown(c, Fault(WINDOW_SIZE_TO_HIGH, id), 0)
      else Go(Put(c, id, c.streams[id].(window := c.streams[id].window + v)))
  }

  // ----- one frame -----

  /** The first frame finds an empty table and creates the entry of the connection. */
  function WithConnection(c: Conn): Conn {
    if c.streams.Keys == {} then Put(c, 0, NewStream(false, false, [], c.settings.initWindow)) else c
  }

  function Dispatch(dec: Decoder, c: Conn, f: Frame): Outcome {
    match f.hdr.typ
    case 0 => OnData(c, f)
    case 1 => OnHeaders(dec, c, f)
    case 2 => OnPriority(c, f)
    case 3 => OnReset(c, f)
    case 4 => OnSettings(c, f)
    case 5 => Closing(Emit(c, OutGoaway(0, 1)))
    case 6 => OnPing(c, f)
    case 7 => OnGoaway(c, f)
    case 8 => OnWindowUpdate(c, f)
    case 9 => OnContinuation(dec, c, f)
    case _ => if HeaderOpen(c) then Thrown(c, Fault(UNDEF_AFTER_HEADER, 0), 0) else Go(c)
  }

  function ProcessFrame(dec: Decoder, c: Conn, f: Frame): Outcome {
    var id := f.hdr.streamId;
    if id > 0 && id % 2 == 0 then Thrown(c, Fault(WRONG_STREAM_ID, 0), 0)
    else
      var c0 := WithConnection(c);
      if id !in c0.streams && HeaderOpen(c0) then Thrown(c0, Fault(HEADER_OTHER_STREAM, 0), 0)
      else Dispatch(dec, c0, f)
  }

  /** Frames are processed until one does not let the loop go on. */
  function RunFrames(dec: Decoder, c: Conn, fs: seq<Frame>): Outcome
    decreases |fs|
  {
    if fs == [] then Go(c)
    else
      var o := RunFrames(dec, c, fs[..|fs| - 1]);
      if o.Go? then ProcessFrame(dec, o.c, fs[|fs| - 1]) else o
  }

  const INIT: Conn := Conn(map[], Settings(0xffff_ffff, 65535, 16384, 0xffff_ffff, 4096), [], [], [])
}
