/** What the actions change of the receive side.  A connection on which actions have run is compared with
one that received the same frames and whose streams and queues nobody else touched. */
module Http2Interference {
  import opened Basics
  import opened Http2Frame
  import opened Http2Proto
  import opened Http2Table
  import opened Http2Runs
  import opened Http2Faults
  import opened Http2Bits
  import opened Http2Actions
  import opened Http2Requests

  /** The same stream, possibly reset by its action, with another queue, and with a smaller window unless
      `eq` says that both have the same. */
  predicate BehindStream(eq: bool, t: nat, s: Stream, s': Stream) {
    && s' == s.(window := s'.window, reset := s'.reset, queue := s'.queue, taken := s'.taken)
    && s'.window <= s.window && (eq ==> s'.window == s.window)
    && (s.reset ==> s'.reset) && (s'.reset && !s.reset ==> s.actionCalled)
    && (t == 0 ==> s' == s.(window := s'.window))
  }

  ghost predicate Behind(eq: bool, c: Conn, d: Conn) {
    && d == c.(streams := d.streams) && d.streams.Keys == c.streams.Keys
    && forall t :: t in c.streams ==> BehindStream(eq, t, c.streams[t], d.streams[t])
  }

  /** The same outcome on both sides. */
  ghost predicate Alike(eq: bool, o: Outcome, o': Outcome) {
    match o
    case Go(c) => o'.Go? && Behind(eq, c, o'.c)
    case Closing(c) => o'.Closing? && Behind(eq, c, o'.c)
    case Thrown(c, e, n) => o'.Thrown? && o'.fault == e && o'.stripped == n && Behind(eq, c, o'.c)
    case Undefined => o'.Undefined?
  }

  /** Reset on the one side only. */
  predicate ResetBehind(c: Conn, d: Conn, t: nat) { StreamReset(d, t) && !StreamReset(c, t) }

  /** The exception for a stream already reset; it closes the connection. */
  predicate Closes(o: Outcome) { o.Thrown? && o.fault == Fault(STREAM_CLOSED, 0) }

  /** The same outcome, unless the stream is reset on the second side only. */
  ghost predicate AlikeUnlessReset(eq: bool, c: Conn, d: Conn, t: nat, o: Outcome, o': Outcome) {
    || Alike(eq, o, o')
    || (ResetBehind(c, d, t) && Closes(o'))
  }

  lemma SameTable(eq: bool, c: Conn)
    ensures Behind(eq, c, c)
  {
  }

  lemma ActedIsBehind(c: Conn, d: Conn, d': Conn)
    requires Behind(false, c, d) && Acted(d, d')
    ensures Behind(false, c, d')
  {
    forall t | t in c.streams ensures BehindStream(false, t, c.streams[t], d'.streams[t]) {
      assert BehindStream(false, t, c.streams[t], d.streams[t]) && ActedStream(t, d.streams[t], d'.streams[t]);
    }
  }

  // ----- the operations on both sides -----

  lemma BehindPut(eq: bool, c: Conn, d: Conn, t: nat, s: Stream, s': Stream)
    requires Behind(eq, c, d) && BehindStream(eq, t, s, s')
    ensures Behind(eq, Put(c, t, s), Put(d, t, s'))
  {
  }

  lemma BehindDyn(eq: bool, c: Conn, d: Conn, dyn: DynTable)
    requires Behind(eq, c, d)
    ensures Behind(eq, c.(dyn := dyn), d.(dyn := dyn))
  {
  }

  lemma BehindOpen(eq: bool, c: Conn, d: Conn, open: bool)
    requires Behind(eq, c, d)
    ensures Behind(eq, SetHeaderOpen(c, open), SetHeaderOpen(d, open)) && HeaderOpen(c) == HeaderOpen(d)
  {
    if 0 in c.streams {
      assert BehindStream(eq, 0, c.streams[0], d.streams[0]);
      BehindPut(eq, c, d, 0, c.streams[0].(headerReceived := open), d.streams[0].(headerReceived := open));
    }
  }

  lemma BehindEmit(eq: bool, c: Conn, d: Conn, o: Out)
    requires Behind(eq, c, d)
    ensures Behind(eq, Emit(c, o), Emit(d, o))
  {
  }

  lemma BehindConnection(eq: bool, c: Conn, d: Conn)
    requires Behind(eq, c, d)
    ensures Behind(eq, WithConnection(c), WithConnection(d))
  {
    if c.streams.Keys == {} {
      var s := NewStream(false, false, [], c.settings.initWindow);
      BehindPut(eq, c, d, 0, s, s);
    }
  }

  // ----- DATA -----

  /** Refused for the same reason, or accepted, on both sides. */
  predicate SameCheck(c: Conn, d: Conn, o: Outcome, o': Outcome) {
    match o
    case Go(_) => o'.Go?
    case Thrown(c', e, n) => c' == c && o' == Thrown(d, e, n)
    case Undefined => o'.Undefined?
    case Closing(_) => false
  }

  lemma DataChecks(c: Conn, d: Conn, f: Frame)
    requires d.settings == c.settings && HeaderOpen(c) == HeaderOpen(d)
    requires var t := f.hdr.streamId;
             && (t in c.streams <==> t in d.streams) && (StreamReset(c, t) ==> StreamReset(d, t))
             && (t in c.streams ==> c.streams[t].streamEnd == d.streams[t].streamEnd)
    ensures SameCheck(c, d, OnData(c, f), OnData(d, f)) || (ResetBehind(c, d, f.hdr.streamId) && Closes(OnData(d, f)))
  {
    hide Bit, HeaderOpen, AcceptData, Body, PadLen;
  }

  /** What a reset does to DATA. */
  lemma DataOnReset(c: Conn, d: Conn, f: Frame)
    requires d.settings == c.settings && HeaderOpen(c) == HeaderOpen(d)
    requires var t := f.hdr.streamId;
             && (t in c.streams <==> t in d.streams)
             && (t in c.streams ==> c.streams[t].streamEnd == d.streams[t].streamEnd)
    ensures OnData(d, f).Go? ==> !StreamReset(d, f.hdr.streamId) && f.hdr.streamId in d.streams
    ensures OnData(c, f).Go? && StreamReset(d, f.hdr.streamId) ==> Closes(OnData(d, f))
  {
    hide Bit, HeaderOpen, AcceptData;
  }

  lemma BehindData(eq: bool, c: Conn, d: Conn, f: Frame)
    requires Behind(eq, c, d)
    ensures AlikeUnlessReset(eq, c, d, f.hdr.streamId, OnData(c, f), OnData(d, f))
    ensures OnData(d, f).Go? ==> !StreamReset(d, f.hdr.streamId)
    ensures OnData(c, f).Go? && StreamReset(d, f.hdr.streamId) ==> Closes(OnData(d, f))
  {
    var t := f.hdr.streamId;
    BehindOpen(eq, c, d, false);
    assert d.settings == c.settings && (t in c.streams <==> t in d.streams);
    assert t in c.streams ==> BehindStream(eq, t, c.streams[t], d.streams[t]);
    hide OnData, Behind, HeaderOpen;
    DataOnReset(c, d, f);
    DataChecks(c, d, f);
    if OnData(d, f).Go? { BehindDataGoes(eq, c, d, f); }
  }

  /** The credit for a DATA frame. */
  function CreditOf(f: Frame): nat { if |Body(f)| > 0 then |Body(f)| + PadField(f) else 0 }

  lemma DataGoes(c: Conn, d: Conn, f: Frame)
    requires OnData(d, f).Go? && f.hdr.streamId in c.streams && d.settings == c.settings
             && HeaderOpen(c) == HeaderOpen(d)
    requires var (s, s') := (c.streams[f.hdr.streamId], d.streams[f.hdr.streamId]);
             s.streamEnd == s'.streamEnd && (s.reset ==> s'.reset)
    ensures var t := f.hdr.streamId;
            && t in d.streams && t != 0 && PadLen(f) <= |Body(f)|
            && OnData(c, f) == Go(AcceptData(c, t, DataOf(f), CreditOf(f), EndOfStream(f)))
            && OnData(d, f) == Go(AcceptData(d, t, DataOf(f), CreditOf(f), EndOfStream(f)))
  {
    hide Bit, HeaderOpen, AcceptData;
  }

  lemma BehindDataGoes(eq: bool, c: Conn, d: Conn, f: Frame)
    requires Behind(eq, c, d) && OnData(d, f).Go? && HeaderOpen(c) == HeaderOpen(d) && f.hdr.streamId in c.streams
    requires BehindStream(eq, f.hdr.streamId, c.streams[f.hdr.streamId], d.streams[f.hdr.streamId])
    ensures OnData(c, f).Go? && Behind(eq, OnData(c, f).c, OnData(d, f).c)
  {
    assert d.settings == c.settings;
    hide OnData, Behind, HeaderOpen, Bit, AcceptData, EndOfStream, Body, PadLen, DataOf, CreditOf;
    DataGoes(c, d, f);
    BehindAccept(eq, c, d, f.hdr.streamId, DataOf(f), CreditOf(f), EndOfStream(f));
  }

  lemma BehindAccept(eq: bool, c: Conn, d: Conn, t: nat, data: seq<byte>, credit: nat, end: bool)
    requires Behind(eq, c, d) && t in c.streams && t != 0 && t in d.streams
    ensures Behind(eq, AcceptData(c, t, data, credit, end), AcceptData(d, t, data, credit, end))
  {
    assert BehindStream(eq, t, c.streams[t], d.streams[t]);
    var (c', d') := (AcceptData(c, t, data, credit, end), AcceptData(d, t, data, credit, end));
    assert BehindStream(eq, t, c'.streams[t], d'.streams[t]);
    assert d'.out == c'.out && d'.called == c'.called;
  }

  // ----- header blocks -----

  lemma BehindFinish(eq: bool, c: Conn, d: Conn, t: nat, s: Stream, s': Stream)
    requires Behind(eq, c, d) && BehindStream(eq, t, s, s') && t != 0
    ensures Behind(eq, FinishRequest(c, t, s), FinishRequest(d, t, s'))
  {
  }

  lemma BehindExpect(eq: bool, c: Conn, d: Conn, t: nat, fields: Fields)
    requires Behind(eq, c, d)
    ensures Behind(eq, AnswerExpect(c, t, fields), AnswerExpect(d, t, fields))
  {
    hide Find, Behind;
    var e := Find(fields, "expect");
    if e != [] { BehindEmit(eq, c, d, OutInterim(t, if e[0] == "100-continue" then 100 else 400)); }
  }

  function BlockStream(c: Conn, t: nat, fields: Fields): Stream {
    if t in c.streams then c.streams[t].(headerEnd := true, fields := fields)
    else NewStream(false, true, fields, c.settings.initWindow)
  }

  /** The table with a decoded block. */
  function BlockConn(c: Conn, t: nat, dyn: DynTable, fields: Fields): Conn {
    SetHeaderOpen(Put(c.(dyn := dyn), t, BlockStream(c, t, fields)), false)
  }

  lemma BehindBlock(eq: bool, c: Conn, d: Conn, t: nat, dyn: DynTable, fields: Fields)
    requires Behind(eq, c, d) && t != 0
    ensures d.dyn == c.dyn && d.settings == c.settings && d.streams.Keys == c.streams.Keys
    ensures t in c.streams ==> d.streams[t].fields == c.streams[t].fields
    ensures BehindStream(eq, t, BlockStream(c, t, fields), BlockStream(d, t, fields))
    ensures Behind(eq, BlockConn(c, t, dyn, fields), BlockConn(d, t, dyn, fields))
  {
    assert t in c.streams ==> BehindStream(eq, t, c.streams[t], d.streams[t]);
    var (s, s') := (BlockStream(c, t, fields), BlockStream(d, t, fields));
    BehindPut(eq, c.(dyn := dyn), d.(dyn := dyn), t, s, s');
    BehindOpen(eq, Put(c.(dyn := dyn), t, s), Put(d.(dyn := dyn), t, s'), false);
    hide Behind, SetHeaderOpen;
  }

  lemma BehindHeaderBlock(eq: bool, dec: Decoder, c: Conn, d: Conn, t: nat, block: seq<byte>, end: bool, n: nat)
    requires Behind(eq, c, d) && t != 0
    ensures Alike(eq, HeaderBlock(dec, c, t, block, end, n), HeaderBlock(dec, d, t, block, end, n))
  {
    hide Find, NonEmptyField, Behind, SetHeaderOpen;
    var r := dec(block, c.dyn, if t in c.streams then c.streams[t].fields else [], c.settings);
    BehindDyn(eq, c, d, r.dyn);
    BehindBlock(eq, c, d, t, r.dyn, r.fields);
    var (c1, d1) := (BlockConn(c, t, r.dyn, r.fields), BlockConn(d, t, r.dyn, r.fields));
    var (s, s') := (BlockStream(c, t, r.fields), BlockStream(d, t, r.fields));
    BehindPut(eq, c1, d1, t, s.(streamEnd := true), s'.(streamEnd := true));
    BehindFinish(eq, c1, d1, t, s, s');
    BehindExpect(eq, c1, d1, t, r.fields);
    hide FinishRequest, AnswerExpect;
  }

  lemma BehindFragment(eq: bool, dec: Decoder, c: Conn, d: Conn, t: nat, rest: seq<byte>, pad: nat, whole: bool,
                       end: bool, n: nat)
    requires Behind(eq, c, d) && t != 0
    ensures var (o, o') := (HeaderFragment(dec, c, t, rest, pad, whole, end, n),
                            HeaderFragment(dec, d, t, rest, pad, whole, end, n));
            && AlikeUnlessReset(eq, c, d, t, o, o')
            && (o'.Go? ==> !StreamReset(d, t))
            && (o.Go? && StreamReset(d, t) ==> Closes(o'))
  {
    assert t in c.streams ==> BehindStream(eq, t, c.streams[t], d.streams[t]);
    assert d.settings == c.settings && (t in c.streams <==> t in d.streams);
    hide HeaderBlock;
    if |rest| >= pad { BehindHeaderBlock(eq, dec, c, d, t, rest[..|rest| - pad], end, n); }
    if |rest| >= pad && t !in c.streams {
      var s := NewStream(true, false, [], c.settings.initWindow).(fragments := [rest[..|rest| - pad]],
        streamEnd := end);
      BehindPut(eq, c, d, t, s, s);
      BehindOpen(eq, Put(c, t, s), Put(d, t, s), true);
    }
    hide SetHeaderOpen, Behind;
  }

  /** HEADERS up to its fragment: refused alike, or passed on. */
  lemma HeadersCheck(dec: Decoder, c: Conn, d: Conn, f: Frame)
    requires d.settings == c.settings
    ensures var (t, o, o') := (f.hdr.streamId, OnHeaders(dec, c, f), OnHeaders(dec, d, f));
            || (SameCheck(c, d, o, o') && !o.Go?)
            || (t != 0
                && o == HeaderFragment(dec, c, t, RestOf(f), PadLen(f), EndOfHeader(f), EndOfStream(f), OptionsOf(f))
                && o' == HeaderFragment(dec, d, t, RestOf(f), PadLen(f), EndOfHeader(f), EndOfStream(f), OptionsOf(f)))
  {
    hide Bit, Dependency, HeaderFragment;
  }

  function RestOf(f: Frame): seq<byte> { if Priority(f) && |Body(f)| >= 5 then Body(f)[5..] else Body(f) }
  function OptionsOf(f: Frame): nat { PadField(f) + if Priority(f) then 5 else 0 }

  lemma BehindHeaders(eq: bool, dec: Decoder, c: Conn, d: Conn, f: Frame)
    requires Behind(eq, c, d)
    ensures AlikeUnlessReset(eq, c, d, f.hdr.streamId, OnHeaders(dec, c, f), OnHeaders(dec, d, f))
    ensures OnHeaders(dec, d, f).Go? ==> !StreamReset(d, f.hdr.streamId)
    ensures OnHeaders(dec, c, f).Go? && StreamReset(d, f.hdr.streamId) ==> Closes(OnHeaders(dec, d, f))
  {
    var t := f.hdr.streamId;
    assert d.settings == c.settings;
    HeadersCheck(dec, c, d, f);
    hide OnHeaders, HeaderFragment, Behind, StreamReset, RestOf, OptionsOf, PadLen, EndOfHeader, EndOfStream;
    if t != 0 { BehindFragment(eq, dec, c, d, t, RestOf(f), PadLen(f), EndOfHeader(f), EndOfStream(f), OptionsOf(f)); }
  }

  lemma BehindComplete(eq: bool, c: Conn, d: Conn, t: nat, s: Stream, s': Stream, r: Decoded, end: bool)
    requires Behind(eq, c, d) && BehindStream(eq, t, s, s') && t != 0 && r.Decoded?
    ensures Behind(eq, CompleteBlock(c, t, s, r, end), CompleteBlock(d, t, s', r, end))
  {
    var (s1, s1') := (s.(fragments := [], fields := r.fields, headerEnd := true, streamEnd := end),
                      s'.(fragments := [], fields := r.fields, headerEnd := true, streamEnd := end));
    BehindPut(eq, c.(dyn := r.dyn), d.(dyn := r.dyn), t, s1, s1');
    var (c0, d0) := (Put(c.(dyn := r.dyn), t, s1), Put(d.(dyn := r.dyn), t, s1'));
    BehindOpen(eq, c0, d0, false);
    hide Behind, SetHeaderOpen;
    if end { BehindFinish(eq, SetHeaderOpen(c0, false), SetHeaderOpen(d0, false), t, s1, s1'); }
    else { BehindExpect(eq, SetHeaderOpen(c0, false), SetHeaderOpen(d0, false), t, r.fields); }
    hide FinishRequest, AnswerExpect;
  }

  lemma BehindContinuation(eq: bool, dec: Decoder, c: Conn, d: Conn, f: Frame)
    requires Behind(eq, c, d)
    ensures Alike(eq, OnContinuation(dec, c, f), OnContinuation(dec, d, f))
  {
    var t := f.hdr.streamId;
    assert d.settings == c.settings && d.dyn == c.dyn && (t in c.streams <==> t in d.streams);
    assert t in c.streams ==> BehindStream(eq, t, c.streams[t], d.streams[t]);
    hide Bit, Concat, CompleteBlock, Behind;
    if t in c.streams && t != 0 {
      BehindParts(eq, c, d, t, f.payload);
      var parts := c.streams[t].fragments + [f.payload];
      var r := dec(Concat(parts), c.dyn, c.streams[t].fields, c.settings);
      BehindDecoded(eq, c, d, t, parts, r, c.streams[t].streamEnd || EndOfStream(f));
    }
    hide Put;
  }

  lemma BehindParts(eq: bool, c: Conn, d: Conn, t: nat, p: seq<byte>)
    requires Behind(eq, c, d) && t in c.streams && t in d.streams
    ensures var (s, s') := (c.streams[t], d.streams[t]);
            && s'.fragments == s.fragments
            && Behind(eq, Put(c, t, s.(fragments := s.fragments + [p])),
                          Put(d, t, s'.(fragments := s'.fragments + [p])))
  {
    assert BehindStream(eq, t, c.streams[t], d.streams[t]);
    var parts := c.streams[t].fragments + [p];
    BehindPut(eq, c, d, t, c.streams[t].(fragments := parts), d.streams[t].(fragments := parts));
    hide Behind, Put;
  }

  lemma BehindDecoded(eq: bool, c: Conn, d: Conn, t: nat, parts: seq<seq<byte>>, r: Decoded, end: bool)
    requires Behind(eq, c, d) && t in c.streams && t in d.streams && t != 0
    ensures var (s, s') := (c.streams[t].(fragments := parts), d.streams[t].(fragments := parts));
            && Behind(eq, Put(c.(dyn := r.dyn), t, s.(fields := r.fields)),
                          Put(d.(dyn := r.dyn), t, s'.(fields := r.fields)))
            && (r.Decoded? ==> Behind(eq, CompleteBlock(c, t, s, r, end), CompleteBlock(d, t, s', r, end)))
  {
    assert BehindStream(eq, t, c.streams[t], d.streams[t]);
    hide Behind, Put, CompleteBlock;
    var (s, s') := (c.streams[t].(fragments := parts), d.streams[t].(fragments := parts));
    BehindDyn(eq, c, d, r.dyn);
    BehindPut(eq, c.(dyn := r.dyn), d.(dyn := r.dyn), t, s.(fields := r.fields), s'.(fields := r.fields));
    if r.Decoded? { BehindComplete(eq, c, d, t, s, s', r, end); }
  }

  // ----- the short frames -----

  lemma BehindSetting(eq: bool, c: Conn, d: Conn, ident: nat, v: nat)
    requires Behind(eq, c, d)
    ensures Alike(eq, ApplySetting(c, ident, v), ApplySetting(d, ident, v))
  {
    hide WindowShift;
  }

  lemma {:induction false} BehindSettings(eq: bool, c: Conn, d: Conn, p: seq<byte>)
    requires Behind(eq, c, d) && |p| % 6 == 0
    ensures Alike(eq, ApplySettings(c, p), ApplySettings(d, p))
    decreases |p|
  {
    if p != [] {
      hide Behind, ApplySetting, Be16, FromBe32;
      BehindSetting(eq, c, d, Be16(p), FromBe32(p[2..]));
      var (o, o') := (ApplySetting(c, Be16(p), FromBe32(p[2..])), ApplySetting(d, Be16(p), FromBe32(p[2..])));
      if o.Go? { BehindSettings(eq, o.c, o'.c, p[6..]); }
    }
  }

  lemma BehindOnSettings(eq: bool, c: Conn, d: Conn, f: Frame)
    requires Behind(eq, c, d)
    ensures Alike(eq, OnSettings(c, f), OnSettings(d, f))
  {
    hide Bit, ApplySettings, Behind;
    if |f.payload| % 6 == 0 {
      BehindSettings(eq, c, d, f.payload);
      var (o, o') := (ApplySettings(c, f.payload), ApplySettings(d, f.payload));
      if o.Go? { BehindEmit(eq, o.c, o'.c, OutSettingsAck); }
    }
    hide Emit;
  }

  lemma BehindReset(eq: bool, c: Conn, d: Conn, f: Frame)
    requires Behind(eq, c, d)
    ensures Alike(eq, OnReset(c, f), OnReset(d, f))
  {
    var t := f.hdr.streamId;
    assert t in c.streams ==> BehindStream(eq, t, c.streams[t], d.streams[t]);
  }

  /** A WINDOW_UPDATE too high for the larger window may not be too high for the smaller one. */
  lemma BehindUpdate(eq: bool, c: Conn, d: Conn, f: Frame)
    requires Behind(eq, c, d) && (eq || OnWindowUpdate(c, f).Go?)
    ensures Alike(eq, OnWindowUpdate(c, f), OnWindowUpdate(d, f))
  {
    hide FromBe32;
    var t := f.hdr.streamId;
    assert t in c.streams ==> BehindStream(eq, t, c.streams[t], d.streams[t]);
  }

  lemma BehindPing(eq: bool, c: Conn, d: Conn, f: Frame)
    requires Behind(eq, c, d)
    ensures Alike(eq, OnPing(c, f), OnPing(d, f)) && Alike(eq, OnPriority(c, f), OnPriority(d, f))
    ensures Alike(eq, OnGoaway(c, f), OnGoaway(d, f))
  {
    BehindOpen(eq, c, d, false);
    BehindEmit(eq, c, d, OutPingAck(f.payload));
    assert d.streams.Keys == c.streams.Keys;
    hide Bit, FromBe32, HeaderOpen, MaxKey;
    if c.streams.Keys != {} { BehindEmit(eq, c, d, OutGoaway(MaxKey(c.streams.Keys), 0)); }
    hide Behind, Emit;
  }

  lemma BehindShort(eq: bool, dec: Decoder, c: Conn, d: Conn, f: Frame)
    requires Behind(eq, c, d) && f.hdr.typ !in {0, 1, 9} && (eq || Dispatch(dec, c, f).Go?)
    ensures Alike(eq, Dispatch(dec, c, f), Dispatch(dec, d, f))
  {
    BehindOpen(eq, c, d, false);
    hide OnReset, OnWindowUpdate, OnSettings, OnPing, OnPriority, OnGoaway, HeaderOpen, Behind;
    match f.hdr.typ
    case 3 => BehindReset(eq, c, d, f);
    case 4 => BehindOnSettings(eq, c, d, f);
    case 5 => BehindEmit(eq, c, d, OutGoaway(0, 1));
    case 8 => BehindUpdate(eq, c, d, f);
    case _ => BehindPing(eq, c, d, f);
  }

  // ----- one frame on both sides -----

  predicate DataOrHeaders(f: Frame) { f.hdr.typ == 0 || f.hdr.typ == 1 }

  /** What the undisturbed connection makes of a frame the other makes of it too, unless it is DATA or
      HEADERS for a stream reset there only, which closes the connection.  With different windows this is
      said of frames the first one accepts. */
  lemma BehindFrame(eq: bool, dec: Decoder, c: Conn, d: Conn, f: Frame)
    requires Behind(eq, c, d) && (eq || ProcessFrame(dec, c, f).Go?)
    ensures var (t, o, o') := (f.hdr.streamId, ProcessFrame(dec, c, f), ProcessFrame(dec, d, f));
            && (Alike(eq, o, o') || (DataOrHeaders(f) && ResetBehind(c, d, t) && Closes(o')))
            && (DataOrHeaders(f) && o'.Go? ==> !StreamReset(d, t))
            && (DataOrHeaders(f) && o.Go? && StreamReset(d, t) ==> Closes(o'))
  {
    var t := f.hdr.streamId;
    var (c0, d0) := (WithConnection(c), WithConnection(d));
    BehindConnection(eq, c, d);
    BehindOpen(eq, c0, d0, false);
    assert (StreamReset(d0, t) <==> StreamReset(d, t)) && (StreamReset(c0, t) <==> StreamReset(c, t));
    assert d0.streams.Keys == c0.streams.Keys;
    hide WithConnection, Behind, OnData, OnHeaders, OnContinuation, HeaderOpen, StreamReset;
    if t % 2 == 1 || t == 0 {
      if t in c0.streams || !HeaderOpen(c0) { BehindDispatch(eq, dec, c0, d0, f); }
    }
    hide Dispatch;
  }

  lemma BehindDispatch(eq: bool, dec: Decoder, c: Conn, d: Conn, f: Frame)
    requires Behind(eq, c, d) && (eq || Dispatch(dec, c, f).Go?)
    ensures var (t, o, o') := (f.hdr.streamId, Dispatch(dec, c, f), Dispatch(dec, d, f));
            && (Alike(eq, o, o') || (DataOrHeaders(f) && ResetBehind(c, d, t) && Closes(o')))
            && (DataOrHeaders(f) && o'.Go? ==> !StreamReset(d, t))
            && (DataOrHeaders(f) && o.Go? && StreamReset(d, t) ==> Closes(o'))
  {
    hide Behind, OnData, OnHeaders, OnContinuation, OnReset, OnSettings, OnPing, OnPriority, OnGoaway, OnWindowUpdate;
    hide StreamReset, HeaderOpen;
    match f.hdr.typ
    case 0 => BehindData(eq, c, d, f);
    case 1 => BehindHeaders(eq, dec, c, d, f);
    case 9 => BehindContinuation(eq, dec, c, d, f);
    case _ =>
      BehindShort(eq, dec, c, d, f);
      hide Dispatch;
  }

  lemma {:induction false} BehindRun(dec: Decoder, c: Conn, d: Conn, fs: seq<Frame>)
    requires Behind(false, c, d) && RunFrames(dec, c, fs).Go? && RunFrames(dec, d, fs).Go?
    ensures Behind(false, RunFrames(dec, c, fs).c, RunFrames(dec, d, fs).c)
    decreases |fs|
  {
    if fs != [] {
      var front := fs[..|fs| - 1];
      hide Behind, ProcessFrame, DataOrHeaders;
      BehindRun(dec, c, d, front);
      BehindFrame(false, dec, RunFrames(dec, c, front).c, RunFrames(dec, d, front).c, fs[|fs| - 1]);
    }
  }

  lemma AcceptedIsOpen(dec: Decoder, c: Conn, f: Frame)
    requires DataOrHeaders(f) && ProcessFrame(dec, c, f).Go?
    ensures f.hdr.streamId != 0 && !StreamReset(c, f.hdr.streamId)
  {
    hide Bit, HeaderBlock, OpenBlock, AcceptData;
  }

  // ----- the receive side alone -----

  /** The connection if no action ever took from a body or reset a stream: frames, stream errors and the
      bytes sent. */
  function AloneStep(dec: Decoder, c: Conn, ev: Event): Option<Conn> {
    match ev
    case Accept(f) => var o := ProcessFrame(dec, c, f); if o.Go? then Some(o.c) else None
    case Fail(f) => var o := ProcessFrame(dec, c, f); if o.Thrown? && KeepsConnection(o.fault) then Some(o.c) else None
    case Spend(i, n) => if i < |c.called| then Some(Spent(c, c.called[i], n)) else None
    case _ => Some(c)
  }

  function Alone(dec: Decoder, evs: seq<Event>): Option<Conn>
    decreases |evs|
  {
    if evs == [] then Some(INIT)
    else
      var c := Alone(dec, evs[..|evs| - 1]);
      if c.Some? then AloneStep(dec, c.value, evs[|evs| - 1]) else None
  }

  lemma AloneSnoc(dec: Decoder, evs: seq<Event>, ev: Event)
    ensures Alone(dec, evs + [ev]) == var c := Alone(dec, evs); if c.Some? then AloneStep(dec, c.value, ev) else None
  {
    assert (evs + [ev])[..|evs|] == evs;
  }

  lemma SpentIsActed(c: Conn, t: nat, n: nat)
    ensures Acted(c, Spent(c, t, n))
  {
  }

  lemma SpentBeside(c: Conn, d: Conn, t: nat, n: nat)
    requires Behind(true, c, d)
    ensures Behind(true, Spent(c, t, n), Spent(d, t, n)) && c.called == d.called
  {
    forall j | j in c.streams ensures BehindStream(true, j, Spent(c, t, n).streams[j], Spent(d, t, n).streams[j]) {
      assert BehindStream(true, j, c.streams[j], d.streams[j]);
    }
  }

  /** All but spending leaves the windows. */
  lemma ActedBeside(c: Conn, d: Conn, d': Conn)
    requires Behind(true, c, d) && Acted(d, d')
    requires forall t :: t in d.streams ==> d'.streams[t].window == d.streams[t].window
    ensures Behind(true, c, d')
  {
    forall t | t in c.streams ensures BehindStream(true, t, c.streams[t], d'.streams[t]) {
      assert BehindStream(true, t, c.streams[t], d.streams[t]) && ActedStream(t, d.streams[t], d'.streams[t]);
    }
  }

  lemma ActionLeavesWindows(sys: Sys, ev: Event)
    requires ev.Act? || ev.Quit? || ev.Finish?
    requires SysInv(sys) && ActionStep(sys, ev).Some?
    ensures var c' := ActionStep(sys, ev).value.c;
            forall t :: t in sys.c.streams ==> t in c'.streams && c'.streams[t].window == sys.c.streams[t].window
  {
    hide SysInv;
    var (t, s) := (StreamOf(sys, ev.i), sys.c.streams[StreamOf(sys, ev.i)]);
    assert BodyStep(sys.actions[ev.i], s).1.window == s.window;
    hide BodyStep;
  }

  lemma StepBeside(dec: Decoder, c: Conn, sys: Sys, ev: Event)
    requires Behind(true, c, sys.c) && SysInv(sys) && Step(dec, sys, ev).Some?
    ensures AloneStep(dec, c, ev).Some? && Behind(true, AloneStep(dec, c, ev).value, Step(dec, sys, ev).value.c)
  {
    hide Behind, SysInv, ProcessFrame, StartNext, DataOrHeaders, ActionStep, StreamReset;
    if ev.Accept? || ev.Fail? {
      BehindFrame(true, dec, c, sys.c, ev.f);
    } else if ev.Start? {
      StartKeeps(sys);
    } else {
      ActionBeside(dec, c, sys, ev);
    }
  }

  lemma ActionBeside(dec: Decoder, c: Conn, sys: Sys, ev: Event)
    requires ev.Act? || ev.Quit? || ev.Finish? || ev.Spend?
    requires Behind(true, c, sys.c) && SysInv(sys) && ActionStep(sys, ev).Some?
    ensures AloneStep(dec, c, ev).Some? && Behind(true, AloneStep(dec, c, ev).value, ActionStep(sys, ev).value.c)
  {
    hide ActionStep, SysInv, ProcessFrame, Behind, Spent;
    if ev.Spend? {
      SpendIs(sys, ev);
      SpentBeside(c, sys.c, sys.c.called[ev.i], ev.n);
    } else {
      ActionKeeps(sys, ev);
      ActionLeavesWindows(sys, ev);
      ActedBeside(c, sys.c, ActionStep(sys, ev).value.c);
    }
  }

  lemma SpendIs(sys: Sys, ev: Event)
    requires ev.Spend? && ActionStep(sys, ev).Some?
    ensures ev.i < |sys.c.called| && ActionStep(sys, ev).value.c == Spent(sys.c, sys.c.called[ev.i], ev.n)
  {
    hide Spent;
  }

  /** Without stream errors and bytes sent these are the frames and nothing else. */
  lemma {:induction false} AloneIsFrames(dec: Decoder, evs: seq<Event>)
    requires forall i :: 0 <= i < |evs| ==> !evs[i].Fail? && !evs[i].Spend?
    ensures Alone(dec, evs).Some? <==> RunFrames(dec, INIT, Frames(evs)).Go?
    ensures Alone(dec, evs).Some? ==> RunFrames(dec, INIT, Frames(evs)) == Go(Alone(dec, evs).value)
    decreases |evs|
  {
    if evs != [] {
      var (front, ev) := (evs[..|evs| - 1], evs[|evs| - 1]);
      assert front + [ev] == evs;
      hide Run, ProcessFrame, RunFrames, Frames, Alone;
      OneMoreEvent(dec, START, front, ev);
      AloneSnoc(dec, front, ev);
      AloneIsFrames(dec, front);
      if ev.Accept? { RunSnoc(dec, INIT, Frames(front), ev.f); }
    }
  }

  // ----- whole runs -----

  /** Whatever the actions do in between, the receive side goes on as if they were not there: it accepts and
      refuses the same frames, with the same streams, windows, header blocks, settings, answers and queued
      actions, and the same bodies pushed. */
  lemma {:induction false} ActionsStayBehind(dec: Decoder, evs: seq<Event>)
    requires Run(dec, START, evs).Some?
    ensures Alone(dec, evs).Some? && Behind(true, Alone(dec, evs).value, Run(dec, START, evs).value.c)
    decreases |evs|
  {
    if evs == [] {
      SameTable(true, INIT);
    } else {
      var (front, ev) := (evs[..|evs| - 1], evs[|evs| - 1]);
      assert front + [ev] == evs;
      hide *;
      OneMoreEvent(dec, START, front, ev);
      AloneSnoc(dec, front, ev);
      ActionsStayBehind(dec, front);
      StartIsSys();
      RunKeepsSys(dec, START, front);
      StepBeside(dec, Alone(dec, front).value, Run(dec, START, front).value, ev);
    }
  }

  lemma AloneStepResets(dec: Decoder, c: Conn, ev: Event, t: nat)
    requires TableInv(c) && AloneStep(dec, c, ev).Some? && t != 0
    ensures var c' := AloneStep(dec, c, ev).value;
            && TableInv(c')
            && (StreamReset(c', t) <==> StreamReset(c, t) || (ev.Accept? && IsRstStream(ev.f, t)))
  {
    hide ProcessFrame, TableInv, KeepsConnection;
    if ev.Accept? {
      FrameKeepsTable(dec, c, ev.f);
      ResetStep(dec, c, ev.f, t);
      hide FrameOk;
    } else if ev.Fail? {
      ErrorKeepsTable(dec, c, ev.f);
      assert SameHistory(Before(c, t), Before(ProcessFrame(dec, c, ev.f).c, t));
    } else if ev.Spend? {
      SpentIsActed(c, c.called[ev.i], ev.n);
      ActedKeepsTable(c, Spent(c, c.called[ev.i], ev.n));
    }
  }

  /** Alone, a stream is reset exactly by an RST_STREAM. */
  lemma {:induction false} AloneResets(dec: Decoder, evs: seq<Event>, t: nat)
    requires Alone(dec, evs).Some? && t != 0
    ensures TableInv(Alone(dec, evs).value) && (StreamReset(Alone(dec, evs).value, t) <==> HasReset(Frames(evs), t))
    decreases |evs|
  {
    if evs == [] {
      assert !HasReset([], t);
    } else {
      var (front, ev) := (evs[..|evs| - 1], evs[|evs| - 1]);
      assert front + [ev] == evs;
      hide *;
      OneMoreEvent(dec, START, front, ev);
      AloneSnoc(dec, front, ev);
      AloneResets(dec, front, t);
      AloneStepResets(dec, Alone(dec, front).value, ev, t);
      if ev.Accept? { OpenedSnoc(Frames(front), ev.f, t); }
    }
  }

  /** In every run the next frame has the outcome it would have alone, unless an action of its stream is
      done and it is DATA or HEADERS: the response is complete, the request is not, and its next frame closes
      the connection.  So a frame is accepted exactly when it is alone and is no such frame. */
  lemma LateFrameIff(dec: Decoder, evs: seq<Event>, f: Frame)
    requires Run(dec, START, evs).Some? && !Run(dec, START, evs).value.dispatching
    ensures Alone(dec, evs).Some?
    ensures var (sys, t) := (Run(dec, START, evs).value, f.hdr.streamId);
            var (o, o') := (ProcessFrame(dec, Alone(dec, evs).value, f), ProcessFrame(dec, sys.c, f));
            var late := DataOrHeaders(f) && Finished(sys, t);
            && (Run(dec, START, evs + [Accept(f)]).Some? <==> o.Go? && !late)
            && (Alike(true, o, o') || (late && Closes(o')))
            && (o.Go? && late ==> Closes(o'))
  {
    var (sys, t) := (Run(dec, START, evs).value, f.hdr.streamId);
    OneMoreEvent(dec, START, evs, Accept(f));
    hide Run, Behind, ProcessFrame, Finished, HasReset, TableInv, Frames, Alone, StreamReset, DataOrHeaders;
    ActionsStayBehind(dec, evs);
    var c := Alone(dec, evs).value;
    BehindFrame(true, dec, c, sys.c, f);
    if DataOrHeaders(f) {
      if ProcessFrame(dec, c, f).Go? { AcceptedIsOpen(dec, c, f); }
      if t != 0 {
        AloneResets(dec, evs, t);
        ResetIff(dec, evs, t);
      } else {
        NeverReset(c, sys.c);
      }
    }
  }

  /** Stream 0 is reset on no side only. */
  lemma NeverReset(c: Conn, d: Conn)
    requires Behind(true, c, d)
    ensures !ResetBehind(c, d, 0)
  {
    if 0 in c.streams { assert BehindStream(true, 0, c.streams[0], d.streams[0]); }
  }
}
