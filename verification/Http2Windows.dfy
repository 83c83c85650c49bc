/** The frames of the peer as steps of the flow-control system. */
module Http2Windows {
  import opened Http2Frame
  import opened Http2Proto
  import opened Http2Table
  import F = FlowControl

  function WindowsOf(c: Conn): map<nat, int> { map t | t in c.streams :: c.streams[t].window }

  /** The flow-control system stores the windows and the initial size of the connection. */
  predicate Agrees(sys: F.Sys, c: Conn) {
    sys.w.wnd == WindowsOf(c) && sys.w.initial == c.settings.initWindow
  }

  function SettingEvents(p: seq<byte>): seq<F.Event>
    requires |p| % 6 == 0
    decreases |p|
  {
    if p == [] then [] else
      (if Be16(p) == 4 then [F.Settings(FromBe32(p[2..]))] else []) + SettingEvents(p[6..])
  }

  function FlowEvents(c: Conn, f: Frame): seq<F.Event> {
    if f.hdr.typ == 1 && f.hdr.streamId !in c.streams then [F.NewStream(f.hdr.streamId)]
    else if f.hdr.typ == 4 && !Ack(f) && |f.payload| % 6 == 0 then SettingEvents(f.payload)
    else if f.hdr.typ == 8 && |f.payload| == 4 then [F.WindowUpdate(f.hdr.streamId, FromBe32(f.payload) % TWO_31)]
    else []
  }

  lemma {:induction false} FlowRunCons(sys: F.Sys, e: F.Event, evs: seq<F.Event>)
    ensures F.Run(sys, [e] + evs) == F.Run(F.Step(sys, e), evs)
    decreases |evs|
  {
    hide F.Step;
    if evs == [] {
      assert [e] + evs == [e] && [e][..0] == [];
    } else {
      assert ([e] + evs)[..|evs|] == [e] + evs[..|evs| - 1];
      FlowRunCons(sys, e, evs[..|evs| - 1]);
    }
  }

  lemma ShiftIsDifference(v: nat, initial: int)
    requires v < MAX_WINDOW && 0 <= initial < MAX_WINDOW
    ensures WindowShift(v, initial) == v - initial == F.Signed32(F.Unsigned64(v - initial))
  {
  }

  lemma SettingAgrees(sys: F.Sys, c: Conn, ident: nat, v: nat)
    requires Agrees(sys, c) && 0 <= c.settings.initWindow < MAX_WINDOW && ApplySetting(c, ident, v).Go?
    ensures var c' := ApplySetting(c, ident, v).c;
            && Agrees(if ident == 4 then F.Step(sys, F.Settings(v)) else sys, c')
            && 0 <= c'.settings.initWindow < MAX_WINDOW
  {
    if ident == 4 {
      WindowSettingAgrees(sys, c, v);
    } else {
      var c' := ApplySetting(c, ident, v).c;
      assert c'.streams == c.streams && c'.settings.initWindow == c.settings.initWindow;
    }
  }

  lemma WindowSettingAgrees(sys: F.Sys, c: Conn, v: nat)
    requires Agrees(sys, c) && 0 <= c.settings.initWindow < MAX_WINDOW && ApplySetting(c, 4, v).Go?
    ensures Agrees(F.Step(sys, F.Settings(v)), ApplySetting(c, 4, v).c)
    ensures ApplySetting(c, 4, v).c.settings.initWindow == v < MAX_WINDOW
  {
    hide WindowShift, F.Signed32, F.Unsigned64, F.RaiseAll;
    ShiftIsDifference(v, c.settings.initWindow);
    var c' := ApplySetting(c, 4, v).c;
    assert forall t :: t in c.streams ==> WindowsOf(c)[t] == c.streams[t].window;
    assert F.Step(sys, F.Settings(v)).w.wnd == WindowsOf(c');
  }

  lemma {:induction false} SettingsAgree(sys: F.Sys, c: Conn, p: seq<byte>)
    requires Agrees(sys, c) && 0 <= c.settings.initWindow < MAX_WINDOW && |p| % 6 == 0 && ApplySettings(c, p).Go?
    ensures Agrees(F.Run(sys, SettingEvents(p)), ApplySettings(c, p).c)
    ensures 0 <= ApplySettings(c, p).c.settings.initWindow < MAX_WINDOW
    decreases |p|
  {
    if p != [] {
      var (ident, v, rest) := (Be16(p), FromBe32(p[2..]), p[6..]);
      SettingAgrees(sys, c, ident, v);
      var (c1, sys1) := (ApplySetting(c, ident, v).c, if ident == 4 then F.Step(sys, F.Settings(v)) else sys);
      SettingsAgree(sys1, c1, rest);
      hide Be16, FromBe32, ApplySetting, F.Step, Agrees;
      if ident == 4 {
        FlowRunCons(sys, F.Settings(v), SettingEvents(rest));
      } else {
        assert SettingEvents(p) == SettingEvents(rest);
      }
    }
  }

  lemma SameWindows(c: Conn, c': Conn)
    requires c'.streams.Keys == c.streams.Keys
    requires forall t :: t in c.streams ==> c'.streams[t].window == c.streams[t].window
    ensures WindowsOf(c') == WindowsOf(c)
  {}

  lemma OneMoreWindow(c: Conn, c': Conn, t: nat)
    requires t !in c.streams && c'.streams.Keys == c.streams.Keys + {t} && c'.streams[t].window == c.settings.initWindow
    requires forall k :: k in c.streams ==> c'.streams[k].window == c.streams[k].window
    ensures WindowsOf(c') == WindowsOf(c)[t := c.settings.initWindow]
  {}

  lemma HeadersWindows(dec: Decoder, c: Conn, f: Frame)
    requires 0 in c.streams && f.hdr.typ == 1 && OnHeaders(dec, c, f).Go?
    ensures var (t, w) := (f.hdr.streamId, WindowsOf(c));
            WindowsOf(OnHeaders(dec, c, f).c) == if t in c.streams then w else w[t := c.settings.initWindow]
  {
    var (t, c') := (f.hdr.streamId, OnHeaders(dec, c, f).c);
    HeadersAccepted(dec, c, f);
    hide OnHeaders, Bit, WindowsOf, HeaderBlock;
    if EndOfHeader(f) {
      BlockWindows(dec, c, t, BlockOf(f), EndOfStream(f), PadField(f) + PriorityField(f));
    } else if t in c.streams {
      SameWindows(c, c');
    } else {
      OneMoreWindow(c, c', t);
    }
  }

  lemma BlockWindows(dec: Decoder, c: Conn, t: nat, block: seq<byte>, end: bool, n: nat)
    requires 0 in c.streams && t != 0 && HeaderBlock(dec, c, t, block, end, n).Go?
    ensures var (c', w) := (HeaderBlock(dec, c, t, block, end, n).c, WindowsOf(c));
            WindowsOf(c') == if t in c.streams then w else w[t := c.settings.initWindow]
  {
    hide HeaderBlock, WindowsOf;
    HeaderBlockAccepted(dec, c, t, block, end, n);
    var c' := HeaderBlock(dec, c, t, block, end, n).c;
    var s := Before(c, t);
    assert c'.streams[t].window == if t in c.streams then c.streams[t].window else c.settings.initWindow;
    if t in c.streams {
      assert c'.streams.Keys == c.streams.Keys;
      SameWindows(c, c');
    } else {
      OneMoreWindow(c, c', t);
    }
  }

  lemma OtherWindows(dec: Decoder, c: Conn, f: Frame)
    requires 0 in c.streams && f.hdr.typ !in {1, 4, 8} && Dispatch(dec, c, f).Go?
    ensures WindowsOf(Dispatch(dec, c, f).c) == WindowsOf(c) && Dispatch(dec, c, f).c.settings == c.settings
  {
    hide Bit, FromBe32, OnData, OnContinuation, DataOf;
    match f.hdr.typ {
      case 0 =>
        DataAccepted(c, f);
        SameSettings(dec, c, f);
      case 9 => ContinuationAccepted(dec, c, f);
      case _ =>
    }
  }

  lemma RunOne(sys: F.Sys, e: F.Event)
    ensures F.Run(sys, [e]) == F.Step(sys, e)
  {
    assert [e][..0] == [];
  }

  /** Refinement: whatever the senders have done to the system, an accepted frame moves windows and
      initial size by its flow-control events and by nothing else. */
  lemma FrameIsFlowStep(dec: Decoder, sys: F.Sys, c: Conn, f: Frame)
    requires TableInv(c) && 0 in c.streams && 0 <= c.settings.initWindow < MAX_WINDOW
    requires Agrees(sys, c) && ProcessFrame(dec, c, f).Go?
    ensures Agrees(F.Run(sys, FlowEvents(c, f)), ProcessFrame(dec, c, f).c)
    ensures 0 <= ProcessFrame(dec, c, f).c.settings.initWindow < MAX_WINDOW
  {
    DispatchOnly(dec, c, f);
    hide ProcessFrame, Dispatch, TableInv, FlowEvents, OnSettings, OnWindowUpdate, OnHeaders, Agrees;
    if f.hdr.typ == 1 {
      HeadersAgree(dec, sys, c, f);
    } else if f.hdr.typ == 4 {
      SettingsFrameAgrees(sys, c, f);
    } else if f.hdr.typ == 8 {
      WindowUpdateAgrees(sys, c, f);
    } else {
      OtherAgrees(dec, sys, c, f);
    }
  }

  /** Once stream 0 exists an accepted frame is what its type's case makes of it. */
  lemma DispatchOnly(dec: Decoder, c: Conn, f: Frame)
    requires 0 in c.streams && ProcessFrame(dec, c, f).Go?
    ensures ProcessFrame(dec, c, f) == Dispatch(dec, c, f)
    ensures f.hdr.typ == 1 ==> Dispatch(dec, c, f) == OnHeaders(dec, c, f)
    ensures f.hdr.typ == 4 ==> Dispatch(dec, c, f) == OnSettings(c, f)
    ensures f.hdr.typ == 8 ==> Dispatch(dec, c, f) == OnWindowUpdate(c, f)
  {
    assert WithConnection(c) == c;
    hide OnData, OnHeaders, OnSettings, OnWindowUpdate, OnContinuation;
  }

  lemma HeadersAgree(dec: Decoder, sys: F.Sys, c: Conn, f: Frame)
    requires 0 in c.streams && Agrees(sys, c) && f.hdr.typ == 1 && OnHeaders(dec, c, f).Go?
    requires Dispatch(dec, c, f) == OnHeaders(dec, c, f)
    ensures Agrees(F.Run(sys, FlowEvents(c, f)), OnHeaders(dec, c, f).c)
    ensures OnHeaders(dec, c, f).c.settings == c.settings
  {
    HeadersWindows(dec, c, f);
    SameSettings(dec, c, f);
    RunOne(sys, F.NewStream(f.hdr.streamId));
    hide OnHeaders, Dispatch, F.Run;
  }

  lemma OtherAgrees(dec: Decoder, sys: F.Sys, c: Conn, f: Frame)
    requires 0 in c.streams && Agrees(sys, c) && f.hdr.typ !in {1, 4, 8} && Dispatch(dec, c, f).Go?
    ensures Agrees(F.Run(sys, FlowEvents(c, f)), Dispatch(dec, c, f).c)
    ensures Dispatch(dec, c, f).c.settings == c.settings
  {
    OtherWindows(dec, c, f);
    hide Dispatch;
  }

  lemma SettingsFrameAgrees(sys: F.Sys, c: Conn, f: Frame)
    requires Agrees(sys, c) && 0 <= c.settings.initWindow < MAX_WINDOW && f.hdr.typ == 4 && OnSettings(c, f).Go?
    ensures Agrees(F.Run(sys, FlowEvents(c, f)), OnSettings(c, f).c)
    ensures 0 <= OnSettings(c, f).c.settings.initWindow < MAX_WINDOW
  {
    if !Ack(f) {
      SettingsAgree(sys, c, f.payload);
      hide Bit, ApplySettings, SettingEvents, F.Run;
    }
  }

  lemma WindowUpdateAgrees(sys: F.Sys, c: Conn, f: Frame)
    requires Agrees(sys, c) && f.hdr.typ == 8 && OnWindowUpdate(c, f).Go?
    ensures Agrees(F.Run(sys, FlowEvents(c, f)), OnWindowUpdate(c, f).c)
  {
    RunOne(sys, F.WindowUpdate(f.hdr.streamId, FromBe32(f.payload) % TWO_31));
    hide FromBe32, F.Run;
  }

  lemma SameSettings(dec: Decoder, c: Conn, f: Frame)
    requires f.hdr.typ in {0, 1} && Dispatch(dec, c, f).Go?
    ensures Dispatch(dec, c, f).c.settings == c.settings
  {
    hide OnHeaders, OnData;
    if f.hdr.typ == 0 { DataSettings(c, f); } else { HeadersSettings(dec, c, f); }
  }

  lemma DataSettings(c: Conn, f: Frame)
    requires OnData(c, f).Go?
    ensures OnData(c, f).c.settings == c.settings
  {
    hide Bit, Body, BodySize, PadLen;
  }

  lemma HeadersSettings(dec: Decoder, c: Conn, f: Frame)
    requires OnHeaders(dec, c, f).Go?
    ensures OnHeaders(dec, c, f).c.settings == c.settings
  {
    var t := f.hdr.streamId;
    hide Bit, FromBe32, Body, BodySize, PadLen, HeaderBlock;
    forall block, end, n | HeaderBlock(dec, c, t, block, end, n).Go?
      ensures HeaderBlock(dec, c, t, block, end, n).c.settings == c.settings
    {
      BlockSettings(dec, c, t, block, end, n);
    }
  }

  lemma BlockSettings(dec: Decoder, c: Conn, t: nat, block: seq<byte>, end: bool, n: nat)
    requires HeaderBlock(dec, c, t, block, end, n).Go?
    ensures HeaderBlock(dec, c, t, block, end, n).c.settings == c.settings
  {
    hide Find, NonEmptyField;
  }

  // ----- credit handed back for DATA -----

  function CreditFor(out: seq<Out>, id: nat): nat {
    if out == [] then 0
    else
      CreditFor(out[..|out| - 1], id) +
      match out[|out| - 1] case OutWindowUpdate(i, n) => if i == id then n else 0 case _ => 0
  }

  lemma CreditSnoc(out: seq<Out>, o: Out, id: nat)
    ensures CreditFor(out + [o], id) ==
            CreditFor(out, id) + match o case OutWindowUpdate(i, n) => if i == id then n else 0 case _ => 0
  {
    assert (out + [o])[..|out|] == out;
  }

  /** Section 6.9 of RFC 7540 counts the whole DATA payload, padding included, against both windows.
      The answers to an accepted frame give the whole payload back to the stream and to the
      connection, unless it is padded and holds nothing but the pad length field. */
  lemma DataCreditReturned(c: Conn, f: Frame)
    requires f.hdr.typ == 0 && OnData(c, f).Go?
    ensures var (t, c') := (f.hdr.streamId, OnData(c, f).c);
            && CreditFor(c'.out, t) - CreditFor(c.out, t) == CreditFor(c'.out, 0) - CreditFor(c.out, 0)
            && (CreditFor(c'.out, t) == CreditFor(c.out, t) + |f.payload| <==> !(Padded(f) && |f.payload| == 1))
  {
    hide Bit;
    var (t, c') := (f.hdr.streamId, OnData(c, f).c);
    assert t != 0;
    var n := |Body(f)| + PadField(f);
    assert |f.payload| == n;
    var (toConn, toStream) := (OutWindowUpdate(0, n), OutWindowUpdate(t, n));
    var answered := if |Body(f)| > 0 then c.out + [toConn] + [toStream] else c.out;
    assert c.out + [toConn] + [toStream] == c.out + [toConn, toStream];
    assert answered == c'.out || answered + [OutReset(t, 1)] == c'.out;
    hide OnData, CreditFor, Body;
    forall id: nat ensures CreditFor(c'.out, id) == CreditFor(answered, id) {
      CreditSnoc(answered, OutReset(t, 1), id);
    }
    forall id: nat ensures CreditFor(c.out + [toConn] + [toStream], id)
                        == CreditFor(c.out, id) + (if id == 0 then n else 0) + (if id == t then n else 0) {
      CreditSnoc(c.out, toConn, id);
      CreditSnoc(c.out + [toConn], toStream, id);
    }
  }
}
