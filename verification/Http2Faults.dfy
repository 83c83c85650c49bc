/** Exceptions of the receive loop: which frames raise one that keeps the connection, and what it leaves. */
module Http2Faults {
  import opened Http2Frame
  import opened Http2Proto
  import opened Http2Table

  /** Stream errors after which the connection goes on (`nReturn = 0`). */
  predicate KeepsConnection(e: Fault) {
    || (e.code == WINDOW_SIZE_TO_HIGH && e.id != 0)
    || e.code in {SAME_STREAMID, STREAM_HALF_CLOSED, MAX_FRAME_SIZE}
  }

  /** The payload bytes a stream error has consumed, read off the frame: the pad length field of DATA, the
      optional fields of HEADERS, nothing of the others. */
  function Consumed(f: Frame): nat {
    if f.hdr.typ == 0 then PadField(f) else if f.hdr.typ == 1 then PadField(f) + PriorityField(f) else 0
  }

  ghost predicate FromDecoder(dec: Decoder, e: Fault) {
    exists block, dyn, fields, settings ::
      dec(block, dyn, fields, settings).Refused? && dec(block, dyn, fields, settings).fault == e
  }

  lemma {:induction false} SettingsFaultsClose(c: Conn, p: seq<byte>)
    requires |p| % 6 == 0 && ApplySettings(c, p).Thrown?
    ensures !KeepsConnection(ApplySettings(c, p).fault)
    decreases |p|
  {
    var o := ApplySetting(c, Be16(p), FromBe32(p[2..]));
    hide Be16, FromBe32;
    if o.Go? {
      hide ApplySetting;
      SettingsFaultsClose(o.c, p[6..]);
    }
  }

  lemma DataFaults(c: Conn, f: Frame)
    requires OnData(c, f).Thrown? && KeepsConnection(OnData(c, f).fault) && c.settings.maxFrame >= 16384
    ensures var o := OnData(c, f);
            o.stripped == PadField(f) && o.fault.code == MAX_FRAME_SIZE
              && (|f.payload| > 16384 || (Padded(f) && f.payload == []))
  {
    hide Bit;
  }

  /** A HEADERS frame that gets as far as its block and is complete. */
  lemma BlockIsDecoded(dec: Decoder, c: Conn, f: Frame)
    requires BlockFits(f) && EndOfHeader(f)
    requires OnHeaders(dec, c, f).Thrown? && KeepsConnection(OnHeaders(dec, c, f).fault)
    requires !(Priority(f) && Dependency(Body(f)) == f.hdr.streamId) && c.settings.maxFrame < WRAPPED_SIZE
    ensures var (id, o) := (f.hdr.streamId, OnHeaders(dec, c, f));
            var d := dec(BlockOf(f), c.dyn, if id in c.streams then c.streams[id].fields else [], c.settings);
            && d.Refused? && d.fault == o.fault && o.stripped == PadField(f) + PriorityField(f)
            && o.c == c.(dyn := d.dyn)
  {
    hide Bit, Dependency, Find, NonEmptyField;
    var rest := if Priority(f) then Body(f)[5..] else Body(f);
    assert rest[..|rest| - PadLen(f)] == BlockOf(f);
  }

  /** The other ways a HEADERS frame keeps the connection. */
  lemma EarlyHeaders(dec: Decoder, c: Conn, f: Frame)
    requires OnHeaders(dec, c, f).Thrown? && KeepsConnection(OnHeaders(dec, c, f).fault)
    requires c.settings.maxFrame < WRAPPED_SIZE
    ensures var o := OnHeaders(dec, c, f);
            || (BlockFits(f) && EndOfHeader(f) && !(Priority(f) && Dependency(Body(f)) == f.hdr.streamId))
            || (o.fault.code == SAME_STREAMID && Priority(f) && |Body(f)| >= 5
                && o.c == c && o.stripped == PadField(f) + 5)
  {
    hide Bit, Dependency, HeaderBlock;
  }

  lemma HeadersFaults(dec: Decoder, c: Conn, f: Frame)
    requires OnHeaders(dec, c, f).Thrown? && KeepsConnection(OnHeaders(dec, c, f).fault)
             && c.settings.maxFrame < WRAPPED_SIZE
    ensures var o := OnHeaders(dec, c, f);
            && o.stripped == PadField(f) + PriorityField(f) <= |f.payload|
            && ((o.fault.code == SAME_STREAMID && Priority(f))
                || (EndOfHeader(f) && BlockFits(f) && FromDecoder(dec, o.fault)))
  {
    EarlyHeaders(dec, c, f);
    hide OnHeaders, Bit, Dependency, KeepsConnection, EndOfHeader, BlockOf;
    if BlockFits(f) && EndOfHeader(f) && !(Priority(f) && Dependency(Body(f)) == f.hdr.streamId) {
      BlockIsDecoded(dec, c, f);
    }
  }

  lemma ContinuationFaults(dec: Decoder, c: Conn, f: Frame)
    requires OnContinuation(dec, c, f).Thrown? && KeepsConnection(OnContinuation(dec, c, f).fault)
    ensures var o := OnContinuation(dec, c, f);
            o.stripped == 0 && (o.fault.code == STREAM_HALF_CLOSED || (EndOfHeader(f) && FromDecoder(dec, o.fault)))
  {
    hide Bit, Concat;
    var (id, o) := (f.hdr.streamId, OnContinuation(dec, c, f));
    var s := c.streams[id];
    if !s.actionCalled {
      var d := dec(Concat(s.fragments + [f.payload]), c.dyn, s.fields, c.settings);
      assert d.Refused? && d.fault == o.fault;
    }
  }

  lemma ShortFaults(dec: Decoder, c: Conn, f: Frame)
    requires f.hdr.typ !in {0, 1, 9} && Dispatch(dec, c, f).Thrown? && KeepsConnection(Dispatch(dec, c, f).fault)
    ensures var o := Dispatch(dec, c, f);
            && o.stripped == 0
            && ((f.hdr.typ == 2 && o.fault.code == SAME_STREAMID && |f.payload| == 5)
                || (f.hdr.typ == 8 && o.fault.code == WINDOW_SIZE_TO_HIGH && |f.payload| == 4))
  {
    hide Bit, FromBe32, ApplySettings;
    if f.hdr.typ == 4 && !Ack(f) && |f.payload| % 6 == 0 && ApplySettings(c, f.payload).Thrown? {
      SettingsFaultsClose(c, f.payload);
    }
  }

  /** The faults that keep the connection, by the type of the frame: an oversized DATA frame, a HEADERS or
      PRIORITY frame that depends on itself, a WINDOW_UPDATE that overflows a stream window, a
      CONTINUATION for a stream already started, or what the decoder raised on a complete block.  No
      other frame raises one. */
  lemma StreamErrorKinds(dec: Decoder, c: Conn, f: Frame)
    requires ProcessFrame(dec, c, f).Thrown? && KeepsConnection(ProcessFrame(dec, c, f).fault)
    requires 16384 <= c.settings.maxFrame < WRAPPED_SIZE
    ensures var o := ProcessFrame(dec, c, f);
            && o.stripped == Consumed(f)
            && match f.hdr.typ
               case 0 => o.fault.code == MAX_FRAME_SIZE && (|f.payload| > 16384 || (Padded(f) && f.payload == []))
               case 1 => Consumed(f) <= |f.payload|
                         && ((o.fault.code == SAME_STREAMID && Priority(f))
                             || (EndOfHeader(f) && BlockFits(f) && FromDecoder(dec, o.fault)))
               case 2 => o.fault.code == SAME_STREAMID && |f.payload| == 5
               case 8 => o.fault.code == WINDOW_SIZE_TO_HIGH && |f.payload| == 4
               case 9 => o.fault.code == STREAM_HALF_CLOSED || (EndOfHeader(f) && FromDecoder(dec, o.fault))
               case _ => false
  {
    var (o, c0) := (ProcessFrame(dec, c, f), WithConnection(c));
    assert o == Dispatch(dec, c0, f) && c0.settings == c.settings by { hide Dispatch; }
    hide ProcessFrame, OnData, OnHeaders, OnContinuation, KeepsConnection, FromDecoder, Bit;
    if f.hdr.typ == 0 {
      DataFaults(c0, f);
    } else if f.hdr.typ == 1 {
      HeadersFaults(dec, c0, f);
    } else if f.hdr.typ == 9 {
      ContinuationFaults(dec, c0, f);
    } else {
      ShortFaults(dec, c0, f);
      hide Dispatch;
    }
  }

  /** No refusal of the decoder keeps the connection. */
  ghost predicate RefusalsClose(dec: Decoder) { forall e: Fault :: FromDecoder(dec, e) ==> !KeepsConnection(e) }

  /** At most the dynamic table and the block of stream `t` differ. */
  ghost predicate OnlyBlock(c: Conn, c': Conn, t: nat) {
    && c' == c.(dyn := c'.dyn, streams := c'.streams) && c'.streams.Keys == c.streams.Keys
    && forall j :: j in c.streams ==>
         c'.streams[j] ==
           if j == t then c.streams[j].(fragments := c'.streams[j].fragments, fields := c'.streams[j].fields)
           else c.streams[j]
  }

  /** What such a fault leaves of the connection: everything as it was, unless the decoder raised it.  Then
      the dynamic table is what the decoder made of it; a block refused on its last CONTINUATION has grown
      by that fragment, stays open and keeps the fields decoded so far. */
  lemma StreamErrorState(dec: Decoder, c: Conn, f: Frame)
    requires ProcessFrame(dec, c, f).Thrown? && KeepsConnection(ProcessFrame(dec, c, f).fault)
    ensures var (o, c0, t) := (ProcessFrame(dec, c, f), WithConnection(c), f.hdr.streamId);
            && (RefusalsClose(dec) ==> o.c == c0)
            && OnlyBlock(c0, o.c, t)
            && (|| o.c == c0
                || (FromDecoder(dec, o.fault) && IsHeaders(f, t) && EndOfHeader(f) && o.c == c0.(dyn := o.c.dyn))
                || (FromDecoder(dec, o.fault) && IsContinuation(f, t) && EndOfHeader(f) && t != 0 && t in c0.streams
                    && BlockIsOpen(c0.streams[t]) && !c0.streams[t].actionCalled
                    && o.c.streams[t].fragments == c0.streams[t].fragments + [f.payload]))
  {
    var (o, c0, t) := (ProcessFrame(dec, c, f), WithConnection(c), f.hdr.streamId);
    assert o == Dispatch(dec, c0, f) by { hide Dispatch; }
    hide ProcessFrame, WithConnection;
    if f.hdr.typ == 1 {
      hide OnHeaders;
      HeadersErrorState(dec, c0, f);
    } else if f.hdr.typ == 9 {
      hide OnContinuation;
      ContinuationErrorState(dec, c0, f);
    } else {
      OtherErrorState(dec, c0, f);
    }
  }

  lemma HeadersErrorState(dec: Decoder, c: Conn, f: Frame)
    requires OnHeaders(dec, c, f).Thrown? && KeepsConnection(OnHeaders(dec, c, f).fault)
    ensures var o := OnHeaders(dec, c, f);
            o.c == c || (FromDecoder(dec, o.fault) && EndOfHeader(f) && o.c == c.(dyn := o.c.dyn))
  {
    hide Bit, Dependency, Find, NonEmptyField;
    var (id, o) := (f.hdr.streamId, OnHeaders(dec, c, f));
    if o.c != c {
      var rest := if Priority(f) then Body(f)[5..] else Body(f);
      var (block, fields) := (rest[..|rest| - PadLen(f)], if id in c.streams then c.streams[id].fields else []);
      assert o == HeaderBlock(dec, c, id, block, EndOfStream(f), PadField(f) + PriorityField(f)) by {
        hide HeaderBlock;
      }
      var d := dec(block, c.dyn, fields, c.settings);
      assert d.Refused? && d.fault == o.fault;
    }
  }

  lemma ContinuationErrorState(dec: Decoder, c: Conn, f: Frame)
    requires OnContinuation(dec, c, f).Thrown? && KeepsConnection(OnContinuation(dec, c, f).fault)
    ensures var (o, t) := (OnContinuation(dec, c, f), f.hdr.streamId);
            && OnlyBlock(c, o.c, t)
            && (|| o.c == c
                || (FromDecoder(dec, o.fault) && EndOfHeader(f) && t != 0 && t in c.streams
                    && BlockIsOpen(c.streams[t]) && !c.streams[t].actionCalled
                    && o.c.streams[t].fragments == c.streams[t].fragments + [f.payload]))
  {
    hide Bit, Concat, Find;
    var (id, o) := (f.hdr.streamId, OnContinuation(dec, c, f));
    var s := c.streams[id];
    if o.c != c {
      var d := dec(Concat(s.fragments + [f.payload]), c.dyn, s.fields, c.settings);
      assert d.Refused? && d.fault == o.fault;
    }
  }

  lemma OtherErrorState(dec: Decoder, c: Conn, f: Frame)
    requires f.hdr.typ !in {1, 9} && Dispatch(dec, c, f).Thrown? && KeepsConnection(Dispatch(dec, c, f).fault)
    ensures Dispatch(dec, c, f).c == c
  {
    hide Bit, FromBe32, Dependency, ApplySettings, DataOf;
    if f.hdr.typ == 4 && !Ack(f) && |f.payload| % 6 == 0 && ApplySettings(c, f.payload).Thrown? {
      SettingsFaultsClose(c, f.payload);
    }
  }

  lemma ErrorKeepsTable(dec: Decoder, c: Conn, f: Frame)
    requires TableInv(c) && ProcessFrame(dec, c, f).Thrown? && KeepsConnection(ProcessFrame(dec, c, f).fault)
    ensures TableInv(ProcessFrame(dec, c, f).c)
    ensures forall t: nat :: SameHistory(Before(c, t), Before(ProcessFrame(dec, c, f).c, t))
    ensures ProcessFrame(dec, c, f).c.called == c.called
    ensures forall t: nat :: t in c.streams ==> t in ProcessFrame(dec, c, f).c.streams
    ensures forall t: nat :: t in ProcessFrame(dec, c, f).c.streams ==> t == 0 || t in c.streams
  {
    StreamErrorState(dec, c, f);
    ConnectionEntered(c);
    var (o, c0, t) := (ProcessFrame(dec, c, f), WithConnection(c), f.hdr.streamId);
    assert c0.called == c.called;
    hide ProcessFrame, KeepsConnection, FromDecoder, RefusalsClose;
    BlockKeepsTable(c0, o.c, t);
  }

  /** All but header block and fields. */
  predicate SameHistory(s: Stream, s': Stream) { s' == s.(fragments := s'.fragments, fields := s'.fields) }

  lemma BlockKeepsTable(c: Conn, c': Conn, t: nat)
    requires TableInv(c) && 0 in c.streams && OnlyBlock(c, c', t)
    ensures TableInv(c') && forall j: nat :: SameHistory(Before(c, j), Before(c', j))
  {
    if HeaderOpen(c') {
      var j :| j in c.streams && j != 0 && BlockIsOpen(c.streams[j]);
      assert j in c'.streams && BlockIsOpen(c'.streams[j]);
    }
  }
}
