/** State bits and body queues as functions of the frames received. */
module Http2Bits {
  import opened Basics
  import opened Http2Frame
  import opened Http2Proto
  import opened Http2Table
  import opened Http2Runs

  predicate IsRstStream(f: Frame, t: nat) { f.hdr.typ == 3 && f.hdr.streamId == t }

  /** The frame ends the request of stream `t`, which is in the table or not: END_STREAM on DATA, on a
      HEADERS frame that is complete or the first of its stream, or on the CONTINUATION that completes a
      block. */
  predicate MarksEnd(known: bool, f: Frame, t: nat) {
    EndOfStream(f) && (IsData(f, t) || (IsHeaders(f, t) && (EndOfHeader(f) || !known))
      || (IsContinuation(f, t) && EndOfHeader(f)))
  }

  // ----- one accepted frame -----

  /** What an accepted frame does to the bits and the queue of stream `t`, exactly. */
  ghost predicate BitStep(c: Conn, f: Frame, c': Conn, t: nat) {
    var (known, s, s') := (t in c.streams, Before(c, t), Before(c', t));
    && (t in c'.streams <==> known || IsHeaders(f, t))
    && (s'.headerReceived <==> s.headerReceived || (!known && IsHeaders(f, t) && !EndOfHeader(f)))
    && (s'.streamEnd <==> s.streamEnd || MarksEnd(known, f, t))
    && (s'.reset <==> s.reset || IsRstStream(f, t))
    && s'.pushed == s.pushed + DataItems(f, t) + EndItems(c, f, t) && s'.taken == s.taken
    && s'.queue == (if IsRstStream(f, t) then (if s.headerReceived then s.queue else [])
                    else s.queue + DataItems(f, t) + EndItems(c, f, t))
    && (s.reset && !s.headerReceived ==> DataItems(f, t) + EndItems(c, f, t) == [])
    && (IsRstStream(f, t) ==> known && DataItems(f, t) + EndItems(c, f, t) == [])
  }

  lemma Untouched(c: Conn, f: Frame, c': Conn, t: nat)
    requires t != f.hdr.streamId && t != 0 && (t in c.streams <==> t in c'.streams)
    requires t in c.streams ==> c'.streams[t] == c.streams[t].(window := c'.streams[t].window)
    ensures BitStep(c, f, c', t)
  {
    hide Bit, DataOf;
  }

  lemma DataBits(c: Conn, f: Frame, t: nat)
    requires TableInv(c) && 0 in c.streams && f.hdr.typ == 0 && OnData(c, f).Go? && t != 0
    ensures BitStep(c, f, OnData(c, f).c, t)
  {
    DataAccepted(c, f);
    hide OnData, Bit, DataOf, Body, PadLen, TableInv;
    if t != f.hdr.streamId {
      Untouched(c, f, OnData(c, f).c, t);
    } else if EndOfStream(f) {
      var q := c.streams[t].queue;
      assert q + [Block(DataOf(f))] + [EndMark] == q + ([Block(DataOf(f))] + [EndMark]);
    }
  }

  lemma HeadersBits(dec: Decoder, c: Conn, f: Frame, t: nat)
    requires TableInv(c) && 0 in c.streams && f.hdr.typ == 1 && f.hdr.streamId % 2 == 1
    requires OnHeaders(dec, c, f).Go? && t != 0
    ensures BitStep(c, f, OnHeaders(dec, c, f).c, t)
  {
    HeadersAccepted(dec, c, f);
    hide OnHeaders, Bit, HeaderBlock, DataOf, TableInv, BlockOf, BlockFits, EndOfHeader, EndOfStream, BitStep;
    if EndOfHeader(f) {
      WholeBlockBits(dec, c, f, BlockOf(f), PadField(f) + PriorityField(f), t);
    } else {
      FirstBlockBits(c, f, OnHeaders(dec, c, f).c, t);
    }
  }

  lemma WholeBlockBits(dec: Decoder, c: Conn, f: Frame, block: seq<byte>, n: nat, t: nat)
    requires 0 in c.streams && f.hdr.typ == 1 && f.hdr.streamId != 0 && t != 0 && EndOfHeader(f)
    requires HeaderBlock(dec, c, f.hdr.streamId, block, EndOfStream(f), n).Go? && !Before(c, f.hdr.streamId).reset
    ensures BitStep(c, f, HeaderBlock(dec, c, f.hdr.streamId, block, EndOfStream(f), n).c, t)
  {
    HeaderBlockAccepted(dec, c, f.hdr.streamId, block, EndOfStream(f), n);
    var c' := HeaderBlock(dec, c, f.hdr.streamId, block, EndOfStream(f), n).c;
    hide HeaderBlock, Bit, DataOf, EndOfStream, EndOfHeader;
    if t != f.hdr.streamId { Untouched(c, f, c', t); } else { WholeBlockStep(c, f, c'); }
  }

  lemma WholeBlockStep(c: Conn, f: Frame, c': Conn)
    requires f.hdr.typ == 1 && f.hdr.streamId != 0 && EndOfHeader(f) && f.hdr.streamId in c'.streams
    requires var (s, s') := (Before(c, f.hdr.streamId), c'.streams[f.hdr.streamId]);
             && !s.reset
             && s' == (if EndOfStream(f) then Push(s, EndMark).(streamEnd := true, actionCalled := true) else s)
                      .(headerEnd := true, fields := s'.fields)
    ensures BitStep(c, f, c', f.hdr.streamId)
  {
    hide Bit, DataOf;
  }

  lemma FirstBlockBits(c: Conn, f: Frame, c': Conn, t: nat)
    requires 0 in c.streams && f.hdr.typ == 1 && f.hdr.streamId != 0 && t != 0 && !EndOfHeader(f)
    requires f.hdr.streamId in c.streams ==> c' == c
    requires f.hdr.streamId !in c.streams ==>
               BlockFits(f) && c' == OpenBlock(c, f.hdr.streamId, BlockOf(f), EndOfStream(f))
    ensures BitStep(c, f, c', t)
  {
    hide Bit, DataOf, BlockOf, BlockFits;
    if t != f.hdr.streamId { Untouched(c, f, c', t); }
  }

  lemma ContinuationBits(dec: Decoder, c: Conn, f: Frame, t: nat)
    requires TableInv(c) && 0 in c.streams && f.hdr.typ == 9 && OnContinuation(dec, c, f).Go? && t != 0
    ensures BitStep(c, f, OnContinuation(dec, c, f).c, t)
  {
    ContinuationAccepted(dec, c, f);
    var c' := OnContinuation(dec, c, f).c;
    hide OnContinuation, Bit, DataOf, TableInv, Concat, EndOfStream, EndOfHeader;
    if t != f.hdr.streamId { Untouched(c, f, c', t); } else { PartStep(c, f, c'); }
  }

  lemma PartStep(c: Conn, f: Frame, c': Conn)
    requires f.hdr.typ == 9 && f.hdr.streamId in c.streams && f.hdr.streamId in c'.streams
    requires var (s, s') := (c.streams[f.hdr.streamId], c'.streams[f.hdr.streamId]);
             var end := EndOfHeader(f) && (s.streamEnd || EndOfStream(f));
             && s.headerReceived
             && s' == (if end then Push(s, EndMark).(streamEnd := true, actionCalled := true) else s)
                      .(headerEnd := s'.headerEnd, fields := s'.fields, fragments := s'.fragments)
    ensures BitStep(c, f, c', f.hdr.streamId)
  {
    hide Bit, DataOf;
  }

  lemma OtherBits(dec: Decoder, c: Conn, f: Frame, t: nat)
    requires 0 in c.streams && f.hdr.typ !in {0, 1, 9} && Dispatch(dec, c, f).Go? && t != 0
    ensures BitStep(c, f, Dispatch(dec, c, f).c, t)
  {
    hide OnReset;
    if f.hdr.typ == 3 {
      assert Dispatch(dec, c, f) == OnReset(c, f);
      hide Dispatch, BitStep;
      ResetBits(c, f, t);
    } else {
      OtherIsQuiet(dec, c, f);
      hide Dispatch;
      QuietStep(c, f, Dispatch(dec, c, f).c, t);
    }
  }

  lemma ResetBits(c: Conn, f: Frame, t: nat)
    requires f.hdr.typ == 3 && OnReset(c, f).Go? && t != 0
    ensures BitStep(c, f, OnReset(c, f).c, t)
  {
    hide Bit, DataOf;
  }

  lemma QuietStep(c: Conn, f: Frame, c': Conn, t: nat)
    requires f.hdr.typ !in {0, 1, 3, 9} && c'.streams.Keys == c.streams.Keys
    requires t in c.streams ==> c'.streams[t] == c.streams[t].(window := c'.streams[t].window)
    ensures BitStep(c, f, c', t)
  {
    hide Bit, DataOf;
  }

  /** At most windows differ. */
  ghost predicate Quiet(c: Conn, c': Conn) {
    && c'.streams.Keys == c.streams.Keys
    && forall t :: t in c.streams ==> c'.streams[t] == c.streams[t].(window := c'.streams[t].window)
  }

  lemma OtherIsQuiet(dec: Decoder, c: Conn, f: Frame)
    requires f.hdr.typ !in {0, 1, 3, 9} && Dispatch(dec, c, f).Go?
    ensures Quiet(c, Dispatch(dec, c, f).c)
  {
    hide OnSettings, OnWindowUpdate, OnPing, OnPriority, OnGoaway, HeaderOpen, Quiet;
    if f.hdr.typ == 4 {
      SettingsAreQuiet(c, f);
    } else if f.hdr.typ == 8 {
      WindowUpdateIsQuiet(c, f);
    } else {
      StreamsStay(c, f);
      SameIsQuiet(c, Dispatch(dec, c, f).c);
    }
  }

  lemma SameIsQuiet(c: Conn, c': Conn)
    requires c'.streams == c.streams
    ensures Quiet(c, c')
  {
  }

  lemma SettingsAreQuiet(c: Conn, f: Frame)
    requires OnSettings(c, f).Go?
    ensures Quiet(c, OnSettings(c, f).c)
  {
    hide Bit, ApplySettings;
    if !Ack(f) { SettingsTouchWindows(c, f.payload); }
  }

  lemma WindowUpdateIsQuiet(c: Conn, f: Frame)
    requires OnWindowUpdate(c, f).Go?
    ensures Quiet(c, OnWindowUpdate(c, f).c)
  {
    hide FromBe32;
  }

  lemma StreamsStay(c: Conn, f: Frame)
    ensures OnPing(c, f).Go? ==> OnPing(c, f).c.streams == c.streams
    ensures OnPriority(c, f).Go? ==> OnPriority(c, f).c == c
    ensures !OnGoaway(c, f).Go?
  {
    hide FromBe32, Bit;
  }

  lemma FrameBits(dec: Decoder, c: Conn, f: Frame, t: nat)
    requires TableInv(c) && ProcessFrame(dec, c, f).Go? && t != 0
    ensures BitStep(c, f, ProcessFrame(dec, c, f).c, t)
  {
    var (c0, c') := (WithConnection(c), ProcessFrame(dec, c, f).c);
    assert TableInv(c0) && 0 in c0.streams && Before(c0, t) == Before(c, t)
      && (t in c0.streams <==> t in c.streams) by {
      if c.streams.Keys == {} { assert c.streams == map[]; }
    }
    assert EndItems(c0, f, t) == EndItems(c, f, t);
    assert BitStep(c0, f, c', t) by {
      hide OnData, OnHeaders, OnContinuation, TableInv, BitStep;
      if f.hdr.typ == 0 { DataBits(c0, f, t); }
      else if f.hdr.typ == 1 { HeadersBits(dec, c0, f, t); }
      else if f.hdr.typ == 9 { ContinuationBits(dec, c0, f, t); }
      else { OtherBits(dec, c0, f, t); }
    }
    hide TableInv, ProcessFrame, EndItems, Bit;
  }

  // ----- what a run of frames leaves, read off the frames -----

  predicate HasReset(fs: seq<Frame>, t: nat) { exists i :: 0 <= i < |fs| && IsRstStream(fs[i], t) }

  predicate Opened(fs: seq<Frame>, t: nat) { exists i :: 0 <= i < |fs| && IsHeaders(fs[i], t) }

  /** The first HEADERS frame of the stream leaves its block to CONTINUATION frames. */
  predicate OpenedSplit(fs: seq<Frame>, t: nat)
    decreases |fs|
  {
    fs != [] &&
      var (front, f) := (fs[..|fs| - 1], fs[|fs| - 1]);
      OpenedSplit(front, t) || (!Opened(front, t) && IsHeaders(f, t) && !EndOfHeader(f))
  }

  /** The request has been ended. */
  predicate Ended(fs: seq<Frame>, t: nat)
    decreases |fs|
  {
    fs != [] &&
      var (front, f) := (fs[..|fs| - 1], fs[|fs| - 1]);
      Ended(front, t) || MarksEnd(Opened(front, t), f, t)
  }

  function EndAfter(front: seq<Frame>, f: Frame, t: nat): seq<Item> {
    if (EndOfStream(f) && (IsData(f, t) || (IsHeaders(f, t) && EndOfHeader(f))))
       || (IsContinuation(f, t) && EndOfHeader(f) && (EndOfStream(f) || Ended(front, t)))
    then [EndMark] else []
  }

  /** Everything put in the body queue: data and end marker as they come. */
  function PushedBy(fs: seq<Frame>, t: nat): seq<Item>
    decreases |fs|
  {
    if fs == [] then []
    else
      var (front, f) := (fs[..|fs| - 1], fs[|fs| - 1]);
      PushedBy(front, t) + DataItems(f, t) + EndAfter(front, f, t)
  }

  /** A reset has emptied the queue for good: only a stream opened over CONTINUATION keeps it. */
  predicate Dropped(fs: seq<Frame>, t: nat) { HasReset(fs, t) && !OpenedSplit(fs, t) }

  /** The stream as the frames and the items taken determine it. */
  ghost predicate Determined(c: Conn, fs: seq<Frame>, t: nat) {
    var s := Before(c, t);
    && (t in c.streams <==> Opened(fs, t))
    && (s.headerReceived <==> OpenedSplit(fs, t))
    && (s.streamEnd <==> Ended(fs, t))
    && (HasReset(fs, t) ==> s.reset)
    && s.pushed == PushedBy(fs, t) && s.taken <= s.pushed
    && s.queue == if Dropped(fs, t) then [] else s.pushed[|s.taken|..]
  }

  lemma OpenedSnoc(fs: seq<Frame>, f: Frame, t: nat)
    ensures Opened(fs + [f], t) <==> Opened(fs, t) || IsHeaders(f, t)
    ensures HasReset(fs + [f], t) <==> HasReset(fs, t) || IsRstStream(f, t)
  {
    hide IsHeaders, IsRstStream;
    var gs := fs + [f];
    assert gs[|fs|] == f && forall i :: 0 <= i < |fs| ==> gs[i] == fs[i];
    if Opened(fs, t) {
      var i :| 0 <= i < |fs| && IsHeaders(fs[i], t);
      assert IsHeaders(gs[i], t);
    }
    if HasReset(fs, t) {
      var i :| 0 <= i < |fs| && IsRstStream(fs[i], t);
      assert IsRstStream(gs[i], t);
    }
    if IsHeaders(f, t) { assert IsHeaders(gs[|fs|], t); }
    if IsRstStream(f, t) { assert IsRstStream(gs[|fs|], t); }
  }

  /** A reset stream is in the table, and so no longer opened. */
  lemma {:induction false} ResetIsOpened(fs: seq<Frame>, t: nat)
    requires OpenedSplit(fs, t)
    ensures Opened(fs, t)
    decreases |fs|
  {
    var (front, f) := (fs[..|fs| - 1], fs[|fs| - 1]);
    assert front + [f] == fs;
    OpenedSnoc(front, f, t);
    if OpenedSplit(front, t) { ResetIsOpened(front, t); }
  }

  lemma StepDetermines(c: Conn, fs: seq<Frame>, f: Frame, c': Conn, t: nat)
    requires Determined(c, fs, t) && BitStep(c, f, c', t)
    ensures Determined(c', fs + [f], t)
  {
    OneMore(fs, f, t);
    assert Before(c, t).reset ==> t in c.streams;
    hide Opened, HasReset, Before, DataItems, Bit, PushedBy, OpenedSplit, Ended, EndOfStream;
    assert EndItems(c, f, t) == EndAfter(fs, f, t);
    var (s, items) := (Before(c, t), DataItems(f, t) + EndAfter(fs, f, t));
    Associate(s.pushed, DataItems(f, t), EndAfter(fs, f, t));
    Associate(s.queue, DataItems(f, t), EndAfter(fs, f, t));
    QueueMoves(s.pushed, s.taken, items);
    assert Before(c', t).pushed == s.pushed + items;
    assert IsRstStream(f, t) ==> items == [];
    assert !IsRstStream(f, t) ==> Before(c', t).queue == s.queue + items;
    assert !IsRstStream(f, t) ==> (Dropped(fs, t) <==> Dropped(fs + [f], t));
    hide EndItems, EndAfter, MarksEnd, EndOfHeader;
  }

  lemma QueueMoves(pushed: seq<Item>, taken: seq<Item>, items: seq<Item>)
    requires taken <= pushed
    ensures taken <= pushed + items && (pushed + items)[|taken|..] == pushed[|taken|..] + items
    ensures items == [] ==> pushed + items == pushed && [] + items == []
  {
  }

  // ----- resets -----

  predicate StreamReset(c: Conn, t: nat) { t in c.streams && c.streams[t].reset }

  lemma ConnectionNotReset(dec: Decoder, c: Conn, f: Frame)
    requires TableInv(c) && ProcessFrame(dec, c, f).Go? && TableInv(ProcessFrame(dec, c, f).c)
    ensures !IsRstStream(f, 0) && !Before(c, 0).reset && !Before(ProcessFrame(dec, c, f).c, 0).reset
  {
    hide OnData, OnHeaders, OnContinuation, OnSettings, OnWindowUpdate, QueueInv;
  }

  lemma ResetStep(dec: Decoder, c: Conn, f: Frame, t: nat)
    requires TableInv(c) && ProcessFrame(dec, c, f).Go? && TableInv(ProcessFrame(dec, c, f).c)
    ensures StreamReset(ProcessFrame(dec, c, f).c, t) <==> StreamReset(c, t) || IsRstStream(f, t)
  {
    if t == 0 { ConnectionNotReset(dec, c, f); } else { FrameBits(dec, c, f, t); }
    hide ProcessFrame, TableInv, IsRstStream;
  }

  /** Within one call a stream becomes reset by its frames exactly when an RST_STREAM for it is among them. */
  lemma {:induction false} ResetInCall(dec: Decoder, c: Conn, fs: seq<Frame>, t: nat)
    requires TableInv(c) && RunFrames(dec, c, fs).Go?
    ensures StreamReset(RunFrames(dec, c, fs).c, t) <==> StreamReset(c, t) || HasReset(fs, t)
    decreases |fs|
  {
    if fs != [] {
      var (front, f) := (fs[..|fs| - 1], fs[|fs| - 1]);
      hide *;
      assert front + [f] == fs;
      RunSnoc(dec, c, front, f);
      ResetInCall(dec, c, front, t);
      RunKeepsTable(dec, c, front);
      RunKeepsTable(dec, c, fs);
      ResetStep(dec, RunFrames(dec, c, front).c, f, t);
      OpenedSnoc(front, f, t);
    }
  }

  /** A reset is to drop the body unless the request has ended.  The test looks at the wrong bit, so
      this happens exactly when nothing is queued or the bit agrees with STREAM_END. */
  lemma ResetDropsBodyIff(c: Conn, f: Frame)
    requires f.hdr.typ == 3 && OnReset(c, f).Go?
    ensures var t := f.hdr.streamId;
            && t in c.streams && t in OnReset(c, f).c.streams
            && var (s, s') := (c.streams[t], OnReset(c, f).c.streams[t]);
               s'.queue == (if s.streamEnd then s.queue else []) <==> s.queue == [] || s.headerReceived == s.streamEnd
  {
  }

  lemma OneMore(fs: seq<Frame>, f: Frame, t: nat)
    ensures OpenedSplit(fs + [f], t) <==> OpenedSplit(fs, t) || (!Opened(fs, t) && IsHeaders(f, t) && !EndOfHeader(f))
    ensures Ended(fs + [f], t) <==> Ended(fs, t) || MarksEnd(Opened(fs, t), f, t)
    ensures Opened(fs + [f], t) <==> Opened(fs, t) || IsHeaders(f, t)
    ensures HasReset(fs + [f], t) <==> HasReset(fs, t) || IsRstStream(f, t)
    ensures PushedBy(fs + [f], t) == PushedBy(fs, t) + DataItems(f, t) + EndAfter(fs, f, t)
  {
    assert (fs + [f])[..|fs|] == fs;
    OpenedSnoc(fs, f, t);
  }
}
