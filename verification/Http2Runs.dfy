/** Runs of accepted frames, and what one more frame does to the history of a stream. */
module Http2Runs {
  import opened Http2Frame
  import opened Http2Proto
  import opened Http2Table

  lemma RunSnoc(dec: Decoder, c: Conn, fs: seq<Frame>, f: Frame)
    ensures RunFrames(dec, c, fs + [f])
         == var o := RunFrames(dec, c, fs); if o.Go? then ProcessFrame(dec, o.c, f) else o
  {
    assert (fs + [f])[..|fs|] == fs;
  }

  lemma {:induction false} RunKeepsTable(dec: Decoder, c: Conn, fs: seq<Frame>)
    requires TableInv(c) && RunFrames(dec, c, fs).Go?
    ensures TableInv(RunFrames(dec, c, fs).c)
    decreases |fs|
  {
    hide TableInv, ProcessFrame;
    if fs != [] {
      var before := fs[..|fs| - 1];
      RunKeepsTable(dec, c, before);
      FrameKeepsTable(dec, RunFrames(dec, c, before).c, fs[|fs| - 1]);
    }
  }

  // ----- request bodies -----

  /** The DATA payloads of one stream, without padding, in the order of arrival. */
  function BodyOf(fs: seq<Frame>, t: nat): seq<Item> {
    if fs == [] then [] else BodyOf(fs[..|fs| - 1], t) + DataItems(fs[|fs| - 1], t)
  }

  ghost predicate QueueIs(c: Conn, fs: seq<Frame>, t: nat) {
    var p := Before(c, t).pushed;
    p == BodyOf(fs, t) + if HasEnd(p) then [EndMark] else []
  }

  /** A queue grown by data and possibly the end marker, neither of which may follow an end marker. */
  lemma QueueGrows(p: seq<Item>, body: seq<Item>, data: seq<Item>, end: seq<Item>)
    requires p == body + (if HasEnd(p) then [EndMark] else [])
    requires (data == [] || data[|data| - 1].Block?) && (end == [] || end == [EndMark])
    requires data != [] || end != [] ==> !HasEnd(p)
    ensures var p' := p + data + end; p' == (body + data) + (if HasEnd(p') then [EndMark] else [])
  {
    if data == [] && end == [] { assert p + data + end == p && body + data == body; }
  }

  lemma QueueStep(c: Conn, f: Frame, c': Conn, fs: seq<Frame>, t: nat)
    requires QueueIs(c, fs, t) && Effect(c, f, c', t)
    ensures QueueIs(c', fs + [f], t)
  {
    assert (fs + [f])[..|fs|] == fs;
    hide BodyOf, Before, DataOf, IsData, Finishes, HasEnd, FlagsGrow, Queues, Body, PadLen;
    QueueGrows(Before(c, t).pushed, BodyOf(fs, t), DataItems(f, t), EndItems(c, f, t));
    BodySnoc(fs, f, t);
  }

  lemma BodySnoc(fs: seq<Frame>, f: Frame, t: nat)
    ensures BodyOf(fs + [f], t) == BodyOf(fs, t) + DataItems(f, t)
  {
    hide DataItems;
    assert (fs + [f])[..|fs|] == fs;
  }

  lemma {:induction false} BodyHasNoEnd(fs: seq<Frame>, t: nat)
    ensures EndMark !in BodyOf(fs, t)
    decreases |fs|
  {
    if fs != [] {
      BodyHasNoEnd(fs[..|fs| - 1], t);
    }
  }

  // ----- the actions queued -----

  lemma {:induction false} CalledGrows(dec: Decoder, c: Conn, fs: seq<Frame>)
    requires TableInv(c) && RunFrames(dec, c, fs).Go?
    ensures c.called <= RunFrames(dec, c, fs).c.called
    decreases |fs|
  {
    if fs != [] {
      hide TableInv, ProcessFrame, Queues;
      var (front, f) := (fs[..|fs| - 1], fs[|fs| - 1]);
      CalledGrows(dec, c, front);
      RunKeepsTable(dec, c, front);
      FrameKeepsTable(dec, RunFrames(dec, c, front).c, f);
    }
  }

  // ----- dispatch count -----

  predicate SeenData(fs: seq<Frame>, t: nat) {
    exists i :: 0 <= i < |fs| && IsData(fs[i], t)
  }

  predicate IsTrailer(f: Frame, t: nat) { IsHeaders(f, t) && EndOfHeader(f) && EndOfStream(f) }

  /** A complete HEADERS frame with END_STREAM that follows a DATA frame of the same stream. */
  predicate HasTrailer(fs: seq<Frame>, t: nat) {
    exists i, j :: 0 <= i < j < |fs| && IsData(fs[i], t) && IsTrailer(fs[j], t)
  }

  lemma SeenDataSnoc(fs: seq<Frame>, f: Frame, t: nat)
    ensures SeenData(fs + [f], t) <==> SeenData(fs, t) || IsData(f, t)
    ensures HasTrailer(fs + [f], t) <==> HasTrailer(fs, t) || (SeenData(fs, t) && IsTrailer(f, t))
  {
    hide IsData, IsTrailer;
    var gs := fs + [f];
    assert forall i :: 0 <= i < |fs| ==> gs[i] == fs[i];
    assert gs[|fs|] == f;
    if SeenData(fs, t) && IsTrailer(f, t) {
      var i :| 0 <= i < |fs| && IsData(fs[i], t);
      assert IsData(gs[i], t) && IsTrailer(gs[|fs|], t);
    }
    if HasTrailer(fs, t) {
      var i, j :| 0 <= i < j < |fs| && IsData(fs[i], t) && IsTrailer(fs[j], t);
      assert IsData(gs[i], t) && IsTrailer(gs[j], t);
    }
    if SeenData(fs, t) {
      var i :| 0 <= i < |fs| && IsData(fs[i], t);
      assert IsData(gs[i], t);
    }
    if IsData(f, t) { assert IsData(gs[|fs|], t); }
  }

  ghost predicate DispatchInv(c: Conn, fs: seq<Frame>, t: nat) {
    var (n, s) := (multiset(c.called)[t], Before(c, t));
    && (s.actionCalled <==> n >= 1) && n <= 2
    && (n == 2 ==> s.streamEnd)
    && (SeenData(fs, t) ==> s.actionCalled)
    && (!s.streamEnd && s.actionCalled ==> SeenData(fs, t))
    && (n == 2 <==> HasTrailer(fs, t))
  }

  lemma DispatchStep(c: Conn, f: Frame, c': Conn, fs: seq<Frame>, t: nat)
    requires DispatchInv(c, fs, t) && Effect(c, f, c', t)
    requires c'.called == c.called + if Queues(c, f, f.hdr.streamId) then [f.hdr.streamId] else []
    ensures DispatchInv(c', fs + [f], t)
  {
    SeenDataSnoc(fs, f, t);
    hide SeenData, HasTrailer, EndOfStream, EndOfHeader, DataItems, Before;
    assert multiset(c'.called)[t] == multiset(c.called)[t] + if Queues(c, f, t) then 1 else 0;
    if IsTrailer(f, t) {
      assert Finishes(c, f, t) && Queues(c, f, t);
    }
  }
}
