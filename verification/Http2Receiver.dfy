/** The receive loop as the source runs it: a moving buffer pointer, a shrinking length, and the
    connection's fields updated in place.  Every method is proved against the functions of Http2Proto. */
module Http2Receiver {
  import opened Basics
  import opened Http2Frame
  import opened Http2Proto
  import opened Http2Feed
  import opened Http2Actions
  import opened Http2Dispatch
  import opened Http2Bits

  /** How a frame, or the loop, ended. */
  datatype Status = Ok | Threw(fault: Fault) | Ending | OutOfPayload

  ghost predicate Matches(o: Outcome, st: Status, c: Conn) {
    match st
    case Ok => o == Go(c)
    case Threw(e) => o.Thrown? && o.fault == e && o.c == c
    case Ending => o == Closing(c)
    case OutOfPayload => o.Undefined?
  }

  /** Where the parser stands: offset of the current byte, what is left of the frame and of the buffer. */
  datatype Cursor = Cursor(pos: nat, size: nat, len: int)

  /** A frame method leaves the cursor such that skipping `size` bytes reaches the next frame. */
  ghost predicate Advanced(cur: Cursor, cur': Cursor, o: Outcome) {
    && (o.Go? ==> cur'.pos + cur'.size == cur.pos + cur.size && cur'.len - cur'.size == cur.len - cur.size)
    && (o.Thrown? ==> cur'.pos == cur.pos + o.stripped && cur'.len == cur.len - o.stripped)
  }

  /** After one turn on the frame at `pos`, the first `n` bytes of what was `suffix`. */
  ghost predicate Landed(buf: seq<byte>, pos: nat, suffix: seq<byte>, n: nat, o: Outcome, pos': nat, len: int)
    requires |suffix| == |buf| - pos && n <= |suffix|
  {
    && (o.Go? ==> pos' == pos + n && len == |buf| - pos' && buf[pos'..] == suffix[n..])
    && (o.Thrown? ==>
          && len <= |buf|
          && Skip(suffix, HEADER_LEN + o.stripped) == if len < 0 then [] else buf[|buf| - len..])
  }

  class Receiver {
    const dec: Decoder
    var streams: map<nat, Stream>
    var settings: Settings
    var dyn: DynTable
    var called: seq<nat>
    var out: seq<Out>

    function View(): Conn reads this { Conn(streams, settings, dyn, called, out) }

    constructor (dec: Decoder)
      ensures View() == INIT && this.dec == dec
    {
      this.dec := dec;
      streams, settings, dyn, called, out := INIT.streams, INIT.settings, INIT.dyn, [], [];
    }

    /** The pad length field, read and stepped over. */
    method StripPad(buf: array<byte>, hdr: Header, cur: Cursor) returns (padLen: nat, cur': Cursor)
      requires cur.pos + hdr.size <= buf.Length && cur.size == hdr.size < TWO_24
      ensures var f := Frame(hdr, buf[cur.pos..cur.pos + hdr.size]);
              && padLen == PadLen(f) && cur' == Cursor(cur.pos + PadField(f), BodySize(f), cur.len - PadField(f))
              && (cur'.size < TWO_24 ==>
                    && !(Padded(f) && f.payload == []) && cur'.pos + cur'.size == cur.pos + hdr.size
                    && Body(f) == buf[cur'.pos..cur'.pos + cur'.size])
    {
      padLen, cur' := 0, cur;
      if Bit(hdr.flag, 0x8) {
        if cur.size == 0 {
          cur' := Cursor(cur.pos + 1, WRAPPED_SIZE, cur.len - 1);
        } else {
          padLen := buf[cur.pos];
          cur' := Cursor(cur.pos + 1, cur.size - 1, cur.len - 1);
        }
      }
    }

    method DataFrame(buf: array<byte>, hdr: Header, cur: Cursor) returns (st: Status, cur': Cursor)
      requires cur.pos + hdr.size <= buf.Length && cur.size == hdr.size < TWO_24
      requires settings.maxFrame < TWO_24
      modifies `streams, `dyn, `called, `out
      ensures var o := OnData(old(View()), Frame(hdr, buf[cur.pos..cur.pos + hdr.size]));
              Matches(o, st, View()) && Advanced(cur, cur', o)
    {
      var id := hdr.streamId;
      ghost var f := Frame(hdr, buf[cur.pos..cur.pos + hdr.size]);
      var padLen;
      padLen, cur' := StripPad(buf, hdr, cur);
      hide Bit, HeaderOpen, AcceptData;
      if id !in streams || id == 0 || HeaderOpen(View()) { return Threw(Fault(DATA_WITHOUT_STREAM, 0)), cur'; }
      var s := streams[id];
      if s.streamEnd { return Threw(Fault(STREAM_CLOSED, id)), cur'; }
      if s.reset { return Threw(Fault(STREAM_CLOSED, 0)), cur'; }
      if cur'.size > settings.maxFrame { return Threw(Fault(MAX_FRAME_SIZE, id)), cur'; }
      if cur'.size < padLen { return Threw(Fault(FRAME_SIZE_VALUE, id)), cur'; }
      AcceptPayload(buf, hdr, cur', padLen, f);
      st := Ok;
    }

    /** The data without the padding, and the credit for all of the payload. */
    method AcceptPayload(buf: array<byte>, hdr: Header, cur: Cursor, padLen: nat, ghost f: Frame)
      requires hdr == f.hdr && hdr.streamId in streams && padLen == PadLen(f) <= cur.size == |Body(f)|
      requires cur.pos + cur.size <= buf.Length && Body(f) == buf[cur.pos..cur.pos + cur.size]
      modifies `streams, `called, `out
      ensures var size := |Body(f)|;
              View() == AcceptData(old(View()), hdr.streamId, Body(f)[..size - PadLen(f)],
                                   if size > 0 then size + PadField(f) else 0, EndOfStream(f))
    {
      hide AcceptData, Body, PadLen, Bit;
      var data := buf[cur.pos..cur.pos + (cur.size - padLen)];
      assert data == Body(f)[..|Body(f)| - PadLen(f)];
      AcceptBlock(hdr.streamId, data, if cur.size > 0 then cur.size + (if Bit(hdr.flag, 0x8) then 1 else 0) else 0,
        Bit(hdr.flag, 0x1));
    }

    method AcceptBlock(id: nat, data: seq<byte>, credit: nat, endStream: bool)
      requires id in streams
      modifies `streams, `called, `out
      ensures View() == AcceptData(old(View()), id, data, credit, endStream)
    {
      AcceptedParts(View(), id, data, credit, endStream);
      hide AcceptData, Taken;
      var s := streams[id];
      var action := !s.actionCalled;
      if credit > 0 {
        out := out + [OutWindowUpdate(0, credit), OutWindowUpdate(id, credit)];
      }
      s := TakeBlock(s, data, endStream);
      if endStream && s.contentLength > 0 && s.contentLength != s.contentReceived {
        out := out + [OutReset(id, 1)];
      }
      if action {
        s := s.(actionCalled := true);
        called := called + [id];
      }
      assert s == s.(actionCalled := true);
      streams := streams[id := s];
    }

    static ghost function Taken(stream: Stream, data: seq<byte>, endStream: bool): Stream {
      var s1 := Push(stream, Block(data)).(contentReceived := stream.contentReceived + |data|);
      if endStream then Push(s1.(streamEnd := true), EndMark) else s1
    }

    static lemma AcceptedParts(c: Conn, id: nat, data: seq<byte>, credit: nat, endStream: bool)
      requires id in c.streams
      ensures var (r, s) := (AcceptData(c, id, data, credit, endStream), Taken(c.streams[id], data, endStream));
              var out1 :=
                if credit > 0 then c.out + [OutWindowUpdate(0, credit), OutWindowUpdate(id, credit)] else c.out;
              && r.settings == c.settings && r.dyn == c.dyn && s.actionCalled == c.streams[id].actionCalled
              && r.streams == c.streams[id := s.(actionCalled := true)]
              && r.called == (if s.actionCalled then c.called else c.called + [id])
              && r.out == (if endStream && s.contentLength > 0 && s.contentLength != s.contentReceived
                           then out1 + [OutReset(id, 1)] else out1)
    {
    }

    method TakeBlock(stream: Stream, data: seq<byte>, endStream: bool) returns (s: Stream)
      ensures s == Taken(stream, data, endStream)
    {
      s := stream.(queue := stream.queue + [Block(data)], pushed := stream.pushed + [Block(data)]);
      s := s.(contentReceived := s.contentReceived + |data|);
      if endStream {
        s := s.(streamEnd := true);
        s := s.(queue := s.queue + [EndMark], pushed := s.pushed + [EndMark]);
      }
    }

    method HeadersFrame(buf: array<byte>, hdr: Header, cur: Cursor) returns (st: Status, cur': Cursor)
      requires cur.pos + hdr.size <= buf.Length && cur.size == hdr.size < TWO_24
      requires settings.maxFrame < TWO_24
      modifies `streams, `dyn, `called, `out
      ensures var o := OnHeaders(dec, old(View()), Frame(hdr, buf[cur.pos..cur.pos + hdr.size]));
              Matches(o, st, View()) && Advanced(cur, cur', o)
    {
      var id := hdr.streamId;
      ghost var f := Frame(hdr, buf[cur.pos..cur.pos + hdr.size]);
      if id == 0 { return Threw(Fault(MISSING_STREAMID, 0)), cur; }
      var padLen;
      padLen, cur' := StripPad(buf, hdr, cur);
      hide Bit, HeaderFragment, FromBe32, Body, BodySize, PadLen, Dependency;
      if cur'.size > settings.maxFrame { return Threw(Fault(FRAME_SIZE_ERROR, id)), cur'; }
      if cur'.size < padLen { return Threw(Fault(WRONG_PAD_LENGTH, 0)), cur'; }
      if Bit(hdr.flag, 0x20) {
        if cur'.size < 5 { return OutOfPayload, cur'; }
        var dependency;
        dependency, cur' := StripPriority(buf, cur', Body(f));
        if dependency == id { return Threw(Fault(SAME_STREAMID, id)), cur'; }
      }
      st := FragmentFrame(id, buf[cur'.pos..cur'.pos + cur'.size], padLen, Bit(hdr.flag, 0x4), Bit(hdr.flag, 0x1),
        cur'.pos - cur.pos);
    }

    /** The priority fields, read and stepped over. */
    method StripPriority(buf: array<byte>, cur: Cursor, ghost body: seq<byte>) returns (dependency: nat, cur': Cursor)
      requires cur.size >= 5 && cur.pos + cur.size <= buf.Length && body == buf[cur.pos..cur.pos + cur.size]
      ensures dependency == Dependency(body) && cur' == Cursor(cur.pos + 5, cur.size - 5, cur.len - 5)
      ensures body[5..] == buf[cur'.pos..cur'.pos + cur'.size]
    {
      FromBe32Prefix(body);
      hide FromBe32;
      PriorityFields(buf, cur.pos, cur.size);
      dependency := FromBe32(buf[cur.pos..cur.pos + 4]) % TWO_31;
      cur' := Cursor(cur.pos + 5, cur.size - 5, cur.len - 5);
    }

    method FragmentFrame(id: nat, rest: seq<byte>, padLen: nat, endHeader: bool, endStream: bool, ghost stripped: nat)
        returns (st: Status)
      requires id != 0
      modifies `streams, `dyn, `called, `out
      ensures var o := HeaderFragment(dec, old(View()), id, rest, padLen, endHeader, endStream, stripped);
              Matches(o, st, View()) && (o.Thrown? ==> o.stripped == stripped)
    {
      hide HeaderBlock;
      if id in streams {
        if streams[id].streamEnd { return Threw(Fault(STREAM_CLOSED, id)); }
        if streams[id].headerEnd && !endStream { return Threw(Fault(HEADER_NO_STREAMEND, 0)); }
        if streams[id].reset { return Threw(Fault(STREAM_CLOSED, 0)); }
      }
      if endHeader {
        if |rest| < padLen { return OutOfPayload; }
        st := FinishedHeader(id, rest[..|rest| - padLen], endStream, stripped);
      } else if id in streams {
        st := Ok;
      } else {
        if |rest| < padLen { return OutOfPayload; }
        StartBlock(id, rest[..|rest| - padLen], endStream);
        st := Ok;
      }
    }

    method StartBlock(id: nat, fragment: seq<byte>, endStream: bool)
      modifies `streams
      ensures View() == OpenBlock(old(View()), id, fragment, endStream)
    {
      var s := NewStream(true, false, [], settings.initWindow).(fragments := [fragment]);
      if endStream { s := s.(streamEnd := true); }
      streams := streams[id := s];
      SetOpen(true);
    }

    method SetOpen(open: bool)
      modifies `streams
      ensures View() == SetHeaderOpen(old(View()), open)
    {
      if 0 in streams {
        streams := streams[0 := streams[0].(headerReceived := open)];
      }
    }

    method PushEnd(id: nat)
      requires id in streams
      modifies `streams, `called
      ensures View() == FinishRequest(old(View()), id, old(streams)[id])
    {
      var s := streams[id].(streamEnd := true);
      s := s.(queue := s.queue + [EndMark], pushed := s.pushed + [EndMark]);
      s := s.(actionCalled := true);
      streams := streams[id := s];
      called := called + [id];
    }

    method CheckExpect(id: nat, fields: Fields)
      modifies `out
      ensures View() == AnswerExpect(old(View()), id, fields)
    {
      var e := Find(fields, "expect");
      if e != [] {
        out := out + [OutInterim(id, if e[0] == "100-continue" then 100 else 400)];
      }
    }

    /** END_HEADERS on a HEADERS frame. */
    method FinishedHeader(id: nat, block: seq<byte>, endStream: bool, ghost stripped: nat) returns (st: Status)
      requires id != 0
      modifies `streams, `dyn, `called, `out
      ensures var o := HeaderBlock(dec, old(View()), id, block, endStream, stripped);
              Matches(o, st, View()) && (o.Go? || o.Thrown?) && (o.Thrown? ==> o.stripped == stripped)
    {
      hide Find, NonEmptyField, MaxKey;
      var known := id in streams;
      var d := dec(block, dyn, if known then streams[id].fields else [], settings);
      dyn := d.dyn;
      if d.Refused? { return Threw(d.fault); }
      if !known {
        if exists k :: k in streams && k > id { return Threw(Fault(PROTOCOL_ERROR, id)); }
        streams := streams[id := NewStream(false, true, d.fields, settings.initWindow)];
      } else {
        streams := streams[id := streams[id].(headerEnd := true, fields := d.fields)];
      }
      ghost var s := streams[id];
      SetOpen(false);
      if !NonEmptyField(d.fields, ":path") && !NonEmptyField(d.fields, ":status") {
        return Threw(Fault(WRONG_HEADER, 0));
      }
      if endStream {
        if Find(d.fields, ":scheme") == [] {
          streams := streams[id := streams[id].(streamEnd := true)];
          return Threw(Fault(WRONG_HEADER, 0));
        }
        PushEnd(id);
      } else {
        CheckExpect(id, d.fields);
      }
      st := Ok;
    }

    /** The fragments are measured, then copied one after the other into one buffer. */
    method JoinFragments(parts: seq<seq<byte>>) returns (block: array<byte>)
      ensures block[..] == Concat(parts) && fresh(block)
    {
      var total: nat := 0;
      for i := 0 to |parts|
        invariant total == |Concat(parts[..i])|
      {
        ConcatTake(parts, i);
        total := total + |parts[i]|;
      }
      assert parts[..|parts|] == parts;
      block := new byte[total](_ => 0);
      var offset: nat := 0;
      for i := 0 to |parts|
        invariant offset == |Concat(parts[..i])| <= total
        invariant block[..offset] == Concat(parts[..i])
      {
        ConcatTake(parts, i);
        ConcatBound(parts, i + 1);
        forall k | 0 <= k < |parts[i]| { block[offset + k] := parts[i][k]; }
        assert block[..offset + |parts[i]|] == Concat(parts[..i]) + parts[i];
        offset := offset + |parts[i]|;
      }
      assert block[..] == block[..offset];
    }

    method ContinuationFrame(buf: array<byte>, hdr: Header, cur: Cursor) returns (st: Status)
      requires cur.pos + hdr.size <= buf.Length && cur.size == hdr.size
      modifies `streams, `dyn, `called, `out
      ensures var o := OnContinuation(dec, old(View()), Frame(hdr, buf[cur.pos..cur.pos + hdr.size]));
              Matches(o, st, View()) && Advanced(cur, cur, o)
    {
      hide Bit, Concat, CompleteBlock;
      var id := hdr.streamId;
      if id !in streams || id == 0 { return Threw(Fault(MISSING_STREAMID, 0)); }
      if streams[id].headerEnd { return Threw(Fault(PROTOCOL_ERROR, 0)); }
      if !streams[id].headerReceived { return Threw(Fault(CONT_WITHOUT_HEADER, 0)); }
      if streams[id].actionCalled { return Threw(Fault(STREAM_HALF_CLOSED, id)); }
      st := AddFragment(id, buf[cur.pos..cur.pos + hdr.size], Bit(hdr.flag, 0x4), Bit(hdr.flag, 0x1));
    }

    method AddFragment(id: nat, data: seq<byte>, endHeader: bool, endStream: bool) returns (st: Status)
      requires id in streams && id != 0
      modifies `streams, `dyn, `called, `out
      ensures var (c, s) := (old(View()), old(streams)[id]);
              var s1 := s.(fragments := s.fragments + [data]);
              var d := dec(Concat(s1.fragments), c.dyn, s.fields, c.settings);
              if !endHeader then st == Ok && View() == Put(c, id, s1)
              else if d.Refused? then
                st == Threw(d.fault) && View() == Put(c.(dyn := d.dyn), id, s1.(fields := d.fields))
              else st == Ok && View() == CompleteBlock(c, id, s1, d, s.streamEnd || endStream)
    {
      streams := streams[id := streams[id].(fragments := streams[id].fragments + [data])];
      if endHeader {
        var block := JoinFragments(streams[id].fragments);
        hide Concat;
        var d := dec(block[..], dyn, streams[id].fields, settings);
        if d.Refused? {
          dyn := d.dyn;
          streams := streams[id := streams[id].(fields := d.fields)];
          return Threw(d.fault);
        }
        ghost var (c1, s1) := (View(), streams[id]);
        FinishBlock(id, d, endStream);
        CompletePut(old(View()), id, s1, d, s1.streamEnd || endStream);
      }
      st := Ok;
    }

    method FinishBlock(id: nat, d: Decoded, endStream: bool)
      requires id in streams && id != 0 && d.Decoded?
      modifies `streams, `dyn, `called, `out
      ensures var s := old(streams)[id]; View() == CompleteBlock(old(View()), id, s, d, s.streamEnd || endStream)
    {
      hide Find;
      dyn := d.dyn;
      var s := streams[id].(fragments := [], fields := d.fields);
      if endStream { s := s.(streamEnd := true); }
      s := s.(headerEnd := true);
      streams := streams[id := s];
      SetOpen(false);
      hide SetHeaderOpen;
      if s.streamEnd {
        PushEnd(id);
      } else {
        CheckExpect(id, d.fields);
      }
    }

    // ----- SETTINGS -----

    method ShiftAllWindows(delta: int)
      modifies `streams
      ensures streams == ShiftWindows(old(streams), delta)
    {
      hide Shifted;
      var todo := streams.Keys;
      while todo != {}
        invariant todo <= streams.Keys == old(streams).Keys
        invariant forall t :: t in streams ==>
                  streams[t] == if t in todo || t == 0 then old(streams)[t] else Shifted(old(streams)[t], delta)
        decreases |todo|
      {
        var t :| t in todo;
        if t != 0 {
          streams := streams[t := Shifted(streams[t], delta)];
        }
        todo := todo - {t};
      }
    }

    method ApplyOne(ident: nat, v: nat) returns (st: Status)
      modifies this
      ensures var o := ApplySetting(old(View()), ident, v); Matches(o, st, View()) && (o.Thrown? ==> o.stripped == 0)
      ensures st == Ok || st.Threw?
      ensures old(settings).maxFrame < TWO_24 ==> settings.maxFrame < TWO_24
    {
      hide WindowShift;
      st := Ok;
      match ident {
        case 1 => settings := settings.(tableSize := v);
        case 2 => if v > 1 { return Threw(Fault(INVALID_PUSH_SET, 0)); }
        case 3 => settings := settings.(maxStreams := v);
        case 4 =>
          if v >= MAX_WINDOW { return Threw(Fault(WINDOW_SIZE_SETTING, 0)); }
          var previous := settings.initWindow;
          settings := settings.(initWindow := v);
          ShiftAllWindows(WindowShift(v, previous));
        case 5 =>
          if !(16384 <= v <= 16777215) { return Threw(Fault(MAX_FRAME_SIZE_SET, 0)); }
          settings := settings.(maxFrame := v);
        case 6 => settings := settings.(maxHeaderList := v);
        case _ =>
      }
    }

    method SettingsFrame(buf: array<byte>, hdr: Header, cur: Cursor) returns (st: Status)
      requires cur.pos + hdr.size <= buf.Length && cur.size == hdr.size
      modifies this
      ensures var o := OnSettings(old(View()), Frame(hdr, buf[cur.pos..cur.pos + hdr.size]));
              Matches(o, st, View()) && Advanced(cur, cur, o)
      ensures old(settings).maxFrame < TWO_24 ==> settings.maxFrame < TWO_24
    {
      hide Bit, FromBe32, Be16;
      if Bit(hdr.flag, 0x1) {
        return if hdr.size != 0 then Threw(Fault(FRAME_SIZE_ERROR, 0)) else Ok;
      }
      if hdr.streamId != 0 { return Threw(Fault(STREAMID_MUST_NULL, 0)); }
      if hdr.size % 6 != 0 { return Threw(Fault(FRAME_SIZE_ERROR, 0)); }
      hide ApplySettings;
      st := ApplyAll(buf, cur.pos, hdr.size);
      if st == Ok { out := out + [OutSettingsAck]; }
    }

    /** Setting by setting. */
    method ApplyAll(buf: array<byte>, pos: nat, size: nat) returns (st: Status)
      requires pos + size <= buf.Length && size % 6 == 0
      modifies this
      ensures var o := ApplySettings(old(View()), buf[pos..pos + size]);
              Matches(o, st, View()) && (o.Thrown? ==> o.stripped == 0)
      ensures st == Ok || st.Threw?
      ensures old(settings).maxFrame < TWO_24 ==> settings.maxFrame < TWO_24
    {
      ghost var p := buf[pos..pos + size];
      ghost var goal := ApplySettings(View(), p);
      hide ApplySettings, AtSetting, SettingsFrom;
      SettingsDoNotStrip(View(), p);
      AllSettings(View(), p);
      var n: nat := 0;
      while n < size
        invariant n <= size && AtSetting(n, size)
        invariant SettingsFrom(View(), p, n) == goal
        invariant old(settings).maxFrame < TWO_24 ==> settings.maxFrame < TWO_24
      {
        st := ApplyAt(buf, pos, size, n);
        if st.Threw? { return; }
        n := n + 6;
      }
      NoSettings(View(), p);
      st := Ok;
    }

    method ApplyAt(buf: array<byte>, pos: nat, size: nat, n: nat) returns (st: Status)
      requires pos + size <= buf.Length && n < size && AtSetting(n, size)
      modifies this
      ensures st == Ok || st.Threw?
      ensures var (p, c) := (buf[pos..pos + size], old(View()));
              && n + 6 <= size && AtSetting(n + 6, size)
              && (st.Threw? ==> Matches(SettingsFrom(c, p, n), st, View()))
              && (st == Ok ==> SettingsFrom(c, p, n) == SettingsFrom(View(), p, n + 6))
      ensures old(settings).maxFrame < TWO_24 ==> settings.maxFrame < TWO_24
    {
      hide ApplySetting, Be16, FromBe32, AtSetting, SettingsFrom;
      NextSetting(View(), buf, pos, size, n);
      var at := pos + n;
      var (ident, v) := (Be16(buf[at..at + 2]), FromBe32(buf[at + 2..at + 6]));
      st := ApplyOne(ident, v);
    }

    // ----- the remaining frames -----

    method ShortFrame(buf: array<byte>, hdr: Header, cur: Cursor) returns (st: Status)
      requires HEADER_LEN <= cur.pos && cur.pos + hdr.size <= buf.Length && cur.size == hdr.size
      requires hdr.typ !in {0, 1, 4, 9}
      requires hdr.typ == 6 ==> buf[cur.pos - 5] == hdr.flag
      modifies this, buf
      ensures var o := Dispatch(dec, old(View()), Frame(hdr, old(buf[cur.pos..cur.pos + hdr.size])));
              Matches(o, st, View()) && Advanced(cur, cur, o)
      ensures buf[cur.pos..] == old(buf[cur.pos..])
      ensures settings == old(settings)
    {
      hide MaxKey, FromBe32, Bit;
      var (id, p) := (hdr.streamId, buf[cur.pos..cur.pos + hdr.size]);
      match hdr.typ {
        case 2 =>
          if id == 0 { return Threw(Fault(MISSING_STREAMID, 0)); }
          if hdr.size != 5 { return Threw(Fault(FRAME_SIZE_ERROR, 0)); }
          if HeaderOpen(View()) { return Threw(Fault(PROTOCOL_ERROR, 0)); }
          if Dependency(p) == id { return Threw(Fault(SAME_STREAMID, id)); }
        case 3 =>
          if hdr.size != 4 { return Threw(Fault(FRAME_SIZE_ERROR, 0)); }
          if id !in streams || id == 0 { return Threw(Fault(MISSING_STREAMID, 0)); }
          var s := streams[id].(reset := true);
          if !s.headerReceived { s := s.(queue := []); }
          streams := streams[id := s];
        case 5 =>
          out := out + [OutGoaway(0, 1)];
          return Ending;
        case 6 =>
          if !Bit(hdr.flag, 0x1) {
            if id != 0 { return Threw(Fault(STREAMID_MUST_NULL, 0)); }
            if hdr.size != 8 { return Threw(Fault(FRAME_SIZE_ERROR, 0)); }
            // the ACK flag is set in the received header, which then goes back with its payload
            EvenFlag(hdr.flag);
            buf[cur.pos - 5] := buf[cur.pos - 5] + 1;
            assert buf[cur.pos..cur.pos + hdr.size] == p;
            out := out + [OutPingAck(buf[cur.pos..cur.pos + hdr.size])];
          }
        case 7 =>
          if id != 0 { return Threw(Fault(STREAMID_MUST_NULL, 0)); }
          if hdr.size < 8 || streams.Keys == {} { return OutOfPayload; }
          out := out + [OutGoaway(MaxKey(streams.Keys), 0)];
          return Ending;
        case 8 =>
          if hdr.size != 4 { return Threw(Fault(FRAME_SIZE_ERROR, 0)); }
          var v := FromBe32(p) % TWO_31;
          if id !in streams { return Threw(Fault(MISSING_STREAMID, 0)); }
          if v < 1 { return Threw(Fault(INVALID_WINDOW_SIZE, id)); }
          if streams[id].window + v > MAX_WINDOW { return Threw(Fault(WINDOW_SIZE_TO_HIGH, id)); }
          streams := streams[id := streams[id].(window := streams[id].window + v)];
        case _ =>
          if HeaderOpen(View()) { return Threw(Fault(UNDEF_AFTER_HEADER, 0)); }
      }
      st := Ok;
    }

    // ----- the loop -----

    method OneFrame(buf: array<byte>, hdr: Header, cur: Cursor) returns (st: Status, cur': Cursor)
      requires settings.maxFrame < TWO_24
      requires HEADER_LEN <= cur.pos && cur.pos + hdr.size <= buf.Length && cur.size == hdr.size < TWO_24
      requires buf[cur.pos - 5] == hdr.flag
      modifies this, buf
      ensures var o := ProcessFrame(dec, old(View()), Frame(hdr, old(buf[cur.pos..cur.pos + hdr.size])));
              Matches(o, st, View()) && Advanced(cur, cur', o)
      ensures buf[cur.pos..] == old(buf[cur.pos..])
      ensures settings.maxFrame < TWO_24
    {
      cur' := cur;
      var id := hdr.streamId;
      if id > 0 && id % 2 == 0 { return Threw(Fault(WRONG_STREAM_ID, 0)), cur'; }
      if streams.Keys == {} {
        streams := streams[0 := NewStream(false, false, [], settings.initWindow)];
      }
      if id !in streams && HeaderOpen(View()) { return Threw(Fault(HEADER_OTHER_STREAM, 0)), cur'; }
      hide OnData, OnHeaders, OnContinuation, OnSettings, OnPriority, OnReset, OnPing, OnGoaway, OnWindowUpdate;
      match hdr.typ {
        case 0 => st, cur' := DataFrame(buf, hdr, cur);
        case 1 => st, cur' := HeadersFrame(buf, hdr, cur);
        case 4 => st := SettingsFrame(buf, hdr, cur);
        case 9 => st := ContinuationFrame(buf, hdr, cur);
        case _ => st := ShortFrame(buf, hdr, cur);
      }
    }

    /** One turn of the loop: the header is read, the frame processed, the cursor moved behind it. */
    method Turn(buf: array<byte>, pos: nat) returns (st: Status, pos': nat, len: int)
      requires settings.maxFrame < TWO_24
      requires pos <= buf.Length && FrontFrame(buf[pos..]) > 0
      modifies this, buf
      ensures settings.maxFrame < TWO_24
      ensures var suffix := old(buf[pos..]);
              var o := ProcessFrame(dec, old(View()), FrameAt(suffix));
              && Matches(o, st, View())
              && |suffix| == buf.Length - pos && Landed(buf[..], pos, suffix, FrontFrame(suffix), o, pos', len)
    {
      hide ParseHeader, ProcessFrame, FrameAt, FrontFrame, Advanced, Landed;
      ghost var suffix := buf[pos..];
      FrontFits(suffix);
      var hdr := ReadHeader(buf, pos);
      var cur;
      FrontAt(buf[..], pos, hdr);
      ghost var o := ProcessFrame(dec, View(), FrameAt(suffix));
      ghost var start := Cursor(pos + HEADER_LEN, hdr.size, buf.Length - pos - HEADER_LEN);
      assert buf[pos + HEADER_LEN..pos + HEADER_LEN + hdr.size] ==
        buf[..][pos + HEADER_LEN..pos + HEADER_LEN + hdr.size];
      assert suffix[HEADER_LEN..] == buf[pos + HEADER_LEN..];
      st, cur := OneFrame(buf, hdr, Cursor(pos + HEADER_LEN, hdr.size, buf.Length - pos - HEADER_LEN));
      pos', len := cur.pos + cur.size, cur.len;
      if st == Ok { len := len - cur.size; }
      assert (o.Go? <==> st == Ok) && suffix[HEADER_LEN..] == buf[..][pos + HEADER_LEN..];
      CursorBehind(buf[..], pos, suffix, start, cur, o);
    }

    method ReadHeader(buf: array<byte>, pos: nat) returns (hdr: Header)
      requires pos + HEADER_LEN <= buf.Length
      ensures hdr == ParseHeader(buf[pos..]) && buf[pos + 4] == hdr.flag
    {
      hdr := ParseHeader(buf[pos..pos + HEADER_LEN]);
      ParsePrefix(buf[pos..pos + HEADER_LEN], buf[pos + HEADER_LEN..]);
      assert buf[pos..] == buf[pos..pos + HEADER_LEN] + buf[pos + HEADER_LEN..];
    }

    /** Http2StreamProto: runs the loop over a buffer and starts the actions of the streams it queued.
        `len` is what the caller keeps: the length of the residual at the end of the buffer. */
    method StreamProto(buf: array<byte>) returns (st: Status, len: int, started: seq<nat>)
      requires settings.maxFrame < TWO_24
      modifies this, buf
      ensures settings.maxFrame < TWO_24
      ensures var call := Call(dec, old(View()), old(buf[..]));
              && Matches(call.fed.outcome, st, View()) && started == call.started
      ensures var fed := Loop(dec, old(View()), old(buf[..]));
              fed.outcome.Go? || fed.outcome.Thrown? ==>
                len <= buf.Length && fed.residual == if len < 0 then [] else buf[buf.Length - len..]
    {
      hide ProcessFrame, FrameAt, ParseHeader, Starting;
      var first := |called|;
      ghost var goal := Loop(dec, View(), buf[..]);
      var pos: nat := 0;
      len, st, started := buf.Length, Ok, [];
      assert buf[0..] == buf[..];
      while FrameReady(buf, pos)
        invariant pos <= buf.Length && len == buf.Length - pos && settings.maxFrame < TWO_24
        invariant Loop(dec, View(), buf[pos..]) == goal && st == Ok
        decreases buf.Length - pos
      {
        var pos';
        st, pos', len := Turn(buf, pos);
        if st != Ok {
          if st == Ending { st, started := StartActions(first, st); }
          return;
        }
        pos := pos';
      }
      st, started := StartActions(first, st);
    }

    /** At least a header, and the whole payload it announces. */
    predicate FrameReady(buf: array<byte>, pos: nat)
      requires pos <= buf.Length
      reads buf
      ensures FrameReady(buf, pos) <==> FrontFrame(buf[pos..]) > 0
    {
      buf.Length - pos >= HEADER_LEN && ParseHeader(buf[pos..]).size <= buf.Length - pos - HEADER_LEN
    }

    /** EndOfStreamAction for every queued stream that has not been reset. */
    method StartActions(first: nat, was: Status) returns (st: Status, started: seq<nat>)
      ensures var starts := Starting(View(), if first <= |called| then called[first..] else []);
              started == starts.ids && st == if starts.refused then Threw(Fault(WRONG_HEADER, 0)) else was
    {
      started, st := [], was;
      if first > |called| { return; }
      var item := first;
      ghost var goal := Starting(View(), called[first..]);
      hide Starting, StreamReset, HasStatus;
      assert [] + goal.ids == goal.ids;
      while item < |called|
        invariant first <= item <= |called|
        invariant Front(started, Starting(View(), called[item..])) == goal
      {
        StartingNext(View(), called, item, started);
        if !StreamReset(View(), called[item]) {
          if HasStatus(View(), called[item]) { return Threw(Fault(WRONG_HEADER, 0)), started; }
          started := started + [called[item]];
        }
        item := item + 1;
      }
      NothingStarted(View(), called[item..], started);
    }
  }

  function Front(before: seq<nat>, rest: Starts): Starts { Starts(before + rest.ids, rest.refused) }

  lemma StartingNext(c: Conn, ids: seq<nat>, i: nat, before: seq<nat>)
    requires i < |ids|
    ensures Front(before, Starting(c, ids[i..])) ==
            if StreamReset(c, ids[i]) then Front(before, Starting(c, ids[i + 1..]))
            else if HasStatus(c, ids[i]) then Starts(before, true)
            else Front(before + [ids[i]], Starting(c, ids[i + 1..]))
  {
    hide StreamReset, HasStatus;
    assert ids[i..][1..] == ids[i + 1..];
    assert before + [] == before;
    Associate(before, [ids[i]], Starting(c, ids[i + 1..]).ids);
  }

  lemma NothingStarted(c: Conn, ids: seq<nat>, before: seq<nat>)
    requires ids == []
    ensures Front(before, Starting(c, ids)) == Starts(before, false)
  {}

  lemma FrontFits(b: seq<byte>)
    requires FrontFrame(b) > 0
    ensures HEADER_LEN <= FrontFrame(b) <= |b|
  {
  }

  lemma FrontAt(b: seq<byte>, pos: nat, hdr: Header)
    requires pos <= |b| && FrontFrame(b[pos..]) > 0 && hdr == ParseHeader(b[pos..])
    ensures FrontFrame(b[pos..]) == HEADER_LEN + hdr.size <= |b| - pos && hdr.size < TWO_24
    ensures FrameAt(b[pos..]) == Frame(hdr, b[pos + HEADER_LEN..pos + HEADER_LEN + hdr.size])
  {
    assert b[pos..][HEADER_LEN..HEADER_LEN + hdr.size] == b[pos + HEADER_LEN..pos + HEADER_LEN + hdr.size];
  }

  /** Where the cursor of one frame leaves the buffer: behind the frame, or with its payload, less what
      was stripped, still in front of the rest. */
  lemma CursorBehind(buf: seq<byte>, pos: nat, suffix: seq<byte>, start: Cursor, cur: Cursor, o: Outcome)
    requires pos + HEADER_LEN + start.size <= |buf| && |suffix| == |buf| - pos
    requires suffix[HEADER_LEN..] == buf[pos + HEADER_LEN..]
    requires start.pos == pos + HEADER_LEN && start.len == |buf| - pos - HEADER_LEN && Advanced(start, cur, o)
    ensures Landed(buf, pos, suffix, HEADER_LEN + start.size, o, cur.pos + cur.size,
                   if o.Go? then cur.len - cur.size else cur.len)
  {
    var tail := suffix[HEADER_LEN..];
    if o.Go? {
      Suffixes(suffix, tail, HEADER_LEN, start.size);
      Suffixes(buf, tail, pos + HEADER_LEN, start.size);
    }
    if o.Thrown? && cur.len >= 0 {
      Suffixes(suffix, tail, HEADER_LEN, o.stripped);
      Suffixes(buf, tail, pos + HEADER_LEN, o.stripped);
    }
  }

  lemma Suffixes(b: seq<byte>, tail: seq<byte>, at: nat, n: nat)
    requires at + n <= |b| && b[at..] == tail
    ensures b[at + n..] == tail[n..]
  {}

  lemma PriorityFields(buf: array<byte>, pos: nat, n: nat)
    requires pos + n <= buf.Length && n >= 5
    ensures var body := buf[pos..pos + n]; body[..4] == buf[pos..pos + 4] && body[5..] == buf[pos + 5..pos + n]
  {}

  lemma EvenFlag(flag: byte)
    requires !Bit(flag, 0x1)
    ensures flag < 255
  {}

  lemma SettingBytes(buf: array<byte>, pos: nat, size: nat, n: nat)
    requires pos + size <= buf.Length && n + 6 <= size
    ensures var (p, at) := (buf[pos..pos + size], pos + n);
            && |p[n..]| >= 6 && p[n..][..2] == buf[at..at + 2] && p[n..][2..][..4] == buf[at + 2..at + 6]
              && p[n..][6..] == p[n + 6..]
  {}

  lemma FirstSetting(c: Conn, p: seq<byte>)
    requires |p| >= 6 && |p| % 6 == 0
    ensures var o := ApplySetting(c, Be16(p[..2]), FromBe32(p[2..][..4]));
            ApplySettings(c, p) == if o.Go? then ApplySettings(o.c, p[6..]) else o
  {
    SettingFields(p);
    hide Be16, FromBe32, ApplySetting;
  }

  ghost predicate AtSetting(n: nat, size: nat) { n <= size && n % 6 == 0 && size % 6 == 0 }

  ghost function SettingsFrom(c: Conn, p: seq<byte>, n: nat): Outcome
    requires AtSetting(n, |p|)
  {
    ApplySettings(c, p[n..])
  }

  lemma NextSetting(c: Conn, buf: array<byte>, pos: nat, size: nat, n: nat)
    requires pos + size <= buf.Length && n < size && AtSetting(n, size)
    ensures n + 6 <= size && AtSetting(n + 6, size)
    ensures var (p, at) := (buf[pos..pos + size], pos + n);
            var o := ApplySetting(c, Be16(buf[at..at + 2]), FromBe32(buf[at + 2..at + 6]));
            SettingsFrom(c, p, n) == if o.Go? then SettingsFrom(o.c, p, n + 6) else o
  {
    SettingBytes(buf, pos, size, n);
    hide Be16, FromBe32, ApplySetting, ApplySettings;
    FirstSetting(c, buf[pos..pos + size][n..]);
  }

  lemma AllSettings(c: Conn, p: seq<byte>)
    requires |p| % 6 == 0
    ensures AtSetting(0, |p|) && SettingsFrom(c, p, 0) == ApplySettings(c, p)
  {
    assert p[0..] == p;
    hide ApplySettings;
  }

  lemma NoSettings(c: Conn, p: seq<byte>)
    requires AtSetting(|p|, |p|)
    ensures SettingsFrom(c, p, |p|) == Go(c)
  {}

  lemma SettingFields(p: seq<byte>)
    requires |p| >= 6
    ensures Be16(p) == Be16(p[..2]) && FromBe32(p[2..]) == FromBe32(p[2..][..4])
  {}

  lemma {:induction false} SettingsDoNotStrip(c: Conn, p: seq<byte>)
    requires |p| % 6 == 0
    ensures var o := ApplySettings(c, p); o.Thrown? ==> o.stripped == 0
    decreases |p|
  {
    if p != [] && ApplySetting(c, Be16(p), FromBe32(p[2..])).Go? {
      SettingsDoNotStrip(ApplySetting(c, Be16(p), FromBe32(p[2..])).c, p[6..]);
    }
  }

  lemma CompletePut(c: Conn, id: nat, s: Stream, d: Decoded, end: bool)
    requires d.Decoded?
    ensures CompleteBlock(Put(c, id, s), id, s, d, end) == CompleteBlock(c, id, s, d, end)
  {
    var s1 := s.(fragments := [], fields := d.fields, headerEnd := true, streamEnd := end);
    assert Put(Put(c, id, s).(dyn := d.dyn), id, s1) == Put(c.(dyn := d.dyn), id, s1);
    hide SetHeaderOpen, FinishRequest, AnswerExpect, Put;
  }

  lemma FromBe32Prefix(b: seq<byte>)
    requires |b| >= 4
    ensures FromBe32(b) == FromBe32(b[..4])
  {}

  lemma {:induction false} ConcatTake(parts: seq<seq<byte>>, i: nat)
    requires i < |parts|
    ensures Concat(parts[..i + 1]) == Concat(parts[..i]) + parts[i]
    decreases i
  {
    if i == 0 {
      assert parts[..1][1..] == [];
    } else {
      assert parts[..i + 1][1..] == parts[1..][..i] && parts[..i][1..] == parts[1..][..i - 1];
      ConcatTake(parts[1..], i - 1);
    }
  }

  lemma {:induction false} ConcatBound(parts: seq<seq<byte>>, i: nat)
    requires i <= |parts|
    ensures |Concat(parts[..i])| <= |Concat(parts)|
    decreases |parts| - i
  {
    if i == |parts| {
      assert parts[..i] == parts;
    } else {
      ConcatTake(parts, i);
      ConcatBound(parts, i + 1);
    }
  }
}
