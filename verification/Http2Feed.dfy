/** Feeding the receive loop from a socket: residual bytes, fragmentation and dispatch. */
module Http2Feed {
  import opened Http2Frame
  import opened Http2Proto
  import opened Http2Table
  import opened Http2Runs
  import opened Http2Faults
  import Http2Windows

  function Skip(b: seq<byte>, n: nat): seq<byte> { if n <= |b| then b[n..] else [] }

  datatype Fed = Fed(outcome: Outcome, residual: seq<byte>)

  /** The loop over the buffer.  An exception leaves the payload of its frame, less what was already
      stripped, in front of the bytes kept for the next call. */
  function Loop(dec: Decoder, c: Conn, buf: seq<byte>): Fed
    decreases |buf|
  {
    if FrontFrame(buf) == 0 then Fed(Go(c), buf)
    else
      var o := ProcessFrame(dec, c, FrameAt(buf));
      if o.Go? then Loop(dec, o.c, buf[FrontFrame(buf)..])
      else if o.Thrown? then Fed(o, Skip(buf, HEADER_LEN + o.stripped))
      else Fed(o, buf[FrontFrame(buf)..])
  }

  lemma {:induction false} RunCons(dec: Decoder, c: Conn, f: Frame, fs: seq<Frame>)
    ensures RunFrames(dec, c, [f] + fs)
         == var o := ProcessFrame(dec, c, f); if o.Go? then RunFrames(dec, o.c, fs) else o
    decreases |fs|
  {
    hide ProcessFrame;
    if fs == [] {
      assert [f] + fs == [f];
      assert [f][..0] == [];
    } else {
      var front := fs[..|fs| - 1];
      RunCons(dec, c, f, front);
      assert ([f] + fs)[..|fs|] == [f] + front;
    }
  }

  /** The loop processes exactly the frames the buffer is cut into and keeps the rest. */
  lemma {:induction false} LoopRunsTheFrames(dec: Decoder, c: Conn, buf: seq<byte>)
    ensures Loop(dec, c, buf).outcome == RunFrames(dec, c, Cut(buf).frames)
    ensures Loop(dec, c, buf).outcome.Go? ==> Loop(dec, c, buf).residual == Cut(buf).residual
    decreases |buf|
  {
    hide ProcessFrame, FrontFrame, FrameAt;
    if FrontFrame(buf) > 0 {
      var f := FrameAt(buf);
      RunCons(dec, c, f, Cut(buf[FrontFrame(buf)..]).frames);
      var o := ProcessFrame(dec, c, f);
      if o.Go? {
        LoopRunsTheFrames(dec, o.c, buf[FrontFrame(buf)..]);
      }
    }
  }

  lemma FrontStays(a: seq<byte>, b: seq<byte>)
    requires FrontFrame(a) > 0
    ensures FrontFrame(a + b) == FrontFrame(a) && FrameAt(a + b) == FrameAt(a)
    ensures (a + b)[FrontFrame(a)..] == a[FrontFrame(a)..] + b
  {
    ParsePrefix(a, b);
    hide ParseHeader;
    assert (a + b)[HEADER_LEN..FrontFrame(a)] == a[HEADER_LEN..FrontFrame(a)];
  }

  /** Two reads are as good as one: what the first leaves over is put in front of the second. */
  lemma {:induction false} TwoReads(dec: Decoder, c: Conn, a: seq<byte>, b: seq<byte>)
    ensures var first := Loop(dec, c, a);
            if first.outcome.Go? then Loop(dec, c, a + b) == Loop(dec, first.outcome.c, first.residual + b)
            else Loop(dec, c, a + b).outcome == first.outcome
    decreases |a|
  {
    hide ProcessFrame, FrontFrame, FrameAt;
    if FrontFrame(a) > 0 {
      FrontStays(a, b);
      var o := ProcessFrame(dec, c, FrameAt(a));
      if o.Go? {
        TwoReads(dec, o.c, a[FrontFrame(a)..], b);
      }
    }
  }

  /** OnDataReceived: each read is appended to the residual buffer, which is parsed once it holds a
      frame header. */
  function Receive(dec: Decoder, s: Fed, chunk: seq<byte>): Fed {
    if !s.outcome.Go? then s
    else
      var buf := s.residual + chunk;
      if |buf| < HEADER_LEN then Fed(s.outcome, buf) else Loop(dec, s.outcome.c, buf)
  }

  function ReceiveAll(dec: Decoder, s: Fed, chunks: seq<seq<byte>>): Fed
    decreases |chunks|
  {
    if chunks == [] then s else Receive(dec, ReceiveAll(dec, s, chunks[..|chunks| - 1]), chunks[|chunks| - 1])
  }

  function Joined(chunks: seq<seq<byte>>): seq<byte>
    decreases |chunks|
  {
    if chunks == [] then [] else Joined(chunks[..|chunks| - 1]) + chunks[|chunks| - 1]
  }

  /** Fragmentation independence: for every way the bytes are split into reads, stream table,
      settings, dynamic table, queued actions, answers and residual are those of one read of the whole. */
  lemma {:induction false} FragmentationIndependence(dec: Decoder, c: Conn, chunks: seq<seq<byte>>)
    requires Loop(dec, c, Joined(chunks)).outcome.Go?
    ensures ReceiveAll(dec, Fed(Go(c), []), chunks) == Loop(dec, c, Joined(chunks))
    decreases |chunks|
  {
    hide ProcessFrame, FrameAt, ParseHeader;
    if chunks != [] {
      var (front, last) := (chunks[..|chunks| - 1], chunks[|chunks| - 1]);
      TwoReads(dec, c, Joined(front), last);
      FragmentationIndependence(dec, c, front);
    } else {
      assert FrontFrame([]) == 0;
    }
  }

  /** Whichever way it arrives, a sequence of well-formed frames followed by an incomplete one runs
      frame by frame and leaves exactly the incomplete one. */
  lemma FramesArrive(dec: Decoder, c: Conn, fs: seq<Frame>, tail: seq<byte>, chunks: seq<seq<byte>>)
    requires (forall f :: f in fs ==> WellFormed(f)) && FrontFrame(tail) == 0
    requires Joined(chunks) == WireAll(fs) + tail && RunFrames(dec, c, fs).Go?
    ensures ReceiveAll(dec, Fed(Go(c), []), chunks) == Fed(RunFrames(dec, c, fs), tail)
  {
    hide FrontFrame, RunFrames;
    CutWire(fs, tail);
    LoopRunsTheFrames(dec, c, Joined(chunks));
    FragmentationIndependence(dec, c, chunks);
  }

  // ----- after an exception -----

  /** The next call starts at a frame boundary, whatever follows the offending frame, exactly for a
      HEADERS frame that holds nothing but its optional fields and for an empty CONTINUATION; an empty
      padded DATA frame at the very end of the read is the one other case.  Everything else leaves
      payload in front, which is read as a frame header. */
  lemma StreamErrorResync(dec: Decoder, c: Conn, buf: seq<byte>)
    requires FrontFrame(buf) > 0 && ProcessFrame(dec, c, FrameAt(buf)).Thrown?
    requires KeepsConnection(ProcessFrame(dec, c, FrameAt(buf)).fault) && 16384 <= c.settings.maxFrame < WRAPPED_SIZE
    ensures var f := FrameAt(buf);
            Loop(dec, c, buf).residual == buf[FrontFrame(buf)..]
            <==> match f.hdr.typ
                 case 0 => Padded(f) && f.payload == [] && FrontFrame(buf) == |buf|
                 case 1 => |f.payload| == PadField(f) + PriorityField(f)
                 case 9 => f.payload == []
                 case _ => false
  {
    var f := FrameAt(buf);
    assert |f.payload| == FrontFrame(buf) - HEADER_LEN;
    StreamErrorKinds(dec, c, f);
    var n := HEADER_LEN + Consumed(f);
    hide ProcessFrame, FrameAt, ParseHeader, Bit, FromDecoder;
    assert Loop(dec, c, buf).residual == Skip(buf, n);
    assert n <= |buf| ==> |buf[n..]| == |buf| - n;
  }

  /** With such a decoder the HEADERS case is a frame of priority fields that depends on itself. */
  lemma ResyncHeaders(dec: Decoder, c: Conn, buf: seq<byte>)
    requires FrontFrame(buf) > 0 && FrameAt(buf).hdr.typ == 1 && ProcessFrame(dec, c, FrameAt(buf)).Thrown?
    requires KeepsConnection(ProcessFrame(dec, c, FrameAt(buf)).fault) && 16384 <= c.settings.maxFrame < WRAPPED_SIZE
    requires RefusalsClose(dec)
    ensures var f := FrameAt(buf);
            && ProcessFrame(dec, c, f).fault.code == SAME_STREAMID && Priority(f)
            && (Loop(dec, c, buf).residual == buf[FrontFrame(buf)..] <==> |f.payload| == PadField(f) + 5)
  {
    StreamErrorKinds(dec, c, FrameAt(buf));
    StreamErrorResync(dec, c, buf);
    hide ProcessFrame, FrameAt, ParseHeader, Bit, FromDecoder, Loop;
  }

  /** In every run the largest frame stays in the range of section 6.5.2 of RFC 7540. */
  lemma {:induction false} RunKeepsMaxFrame(dec: Decoder, c: Conn, fs: seq<Frame>)
    requires 16384 <= c.settings.maxFrame <= 16777215 && RunFrames(dec, c, fs).Go?
    ensures 16384 <= RunFrames(dec, c, fs).c.settings.maxFrame <= 16777215
    decreases |fs|
  {
    if fs != [] {
      var front := fs[..|fs| - 1];
      RunKeepsMaxFrame(dec, c, front);
      hide ProcessFrame;
      FrameKeepsMaxFrame(dec, RunFrames(dec, c, front).c, fs[|fs| - 1]);
    }
  }

  lemma {:induction false} SettingsKeepMaxFrame(c: Conn, p: seq<byte>)
    requires |p| % 6 == 0 && 16384 <= c.settings.maxFrame <= 16777215 && ApplySettings(c, p).Go?
    ensures 16384 <= ApplySettings(c, p).c.settings.maxFrame <= 16777215
    decreases |p|
  {
    if p != [] {
      var o := ApplySetting(c, Be16(p), FromBe32(p[2..]));
      hide Be16, FromBe32;
      assert 16384 <= o.c.settings.maxFrame <= 16777215;
      hide ApplySetting;
      SettingsKeepMaxFrame(o.c, p[6..]);
    }
  }

  lemma FrameKeepsMaxFrame(dec: Decoder, c: Conn, f: Frame)
    requires 16384 <= c.settings.maxFrame <= 16777215 && ProcessFrame(dec, c, f).Go?
    ensures 16384 <= ProcessFrame(dec, c, f).c.settings.maxFrame <= 16777215
  {
    var (o, c0) := (ProcessFrame(dec, c, f), WithConnection(c));
    assert o == Dispatch(dec, c0, f) && c0.settings == c.settings by { hide Dispatch; }
    hide ProcessFrame, OnData, OnHeaders, OnContinuation, ApplySettings, FromBe32, Bit, Dependency;
    if f.hdr.typ == 4 {
      if !Ack(f) { SettingsKeepMaxFrame(c0, f.payload); }
    } else if f.hdr.typ in {0, 1} {
      Http2Windows.SameSettings(dec, c0, f);
    } else if f.hdr.typ == 9 {
      ContinuationSettings(dec, c0, f);
    }
  }

  lemma ContinuationSettings(dec: Decoder, c: Conn, f: Frame)
    requires OnContinuation(dec, c, f).Go?
    ensures OnContinuation(dec, c, f).c.settings == c.settings
  {
    hide Bit, Concat, Find;
  }
}
