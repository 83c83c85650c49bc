/** Requests over whole runs: what frames and actions together make of a stream, in every interleaving. */
module Http2Requests {
  import opened Basics
  import opened Http2Frame
  import opened Http2Proto
  import opened Http2Table
  import opened Http2Runs
  import opened Http2Faults
  import opened Http2Bits
  import opened Http2Actions

  /** An action of the stream is done. */
  ghost predicate Finished(sys: Sys, t: nat) {
    exists i :: Runs(sys, i) && StreamOf(sys, i) == t && sys.actions[i].pc.Gone?
  }

  /** The history of stream `t`, read off the frames accepted and the actions. */
  ghost predicate Known(sys: Sys, fs: seq<Frame>, t: nat) {
    && QueueIs(sys.c, fs, t) && DispatchInv(sys.c, fs, t)
    && (t != 0 ==> Determined(sys.c, fs, t) && (Before(sys.c, t).reset <==> HasReset(fs, t) || Finished(sys, t)))
  }

  // ----- one event -----

  lemma SameFinished(sys: Sys, sys': Sys, t: nat)
    requires Marked(sys.c) && MovedOn(sys.c, sys'.c) && sys'.actions == sys.actions
    requires forall i :: i in sys.actions ==> i < |sys.c.called|
    ensures Finished(sys', t) <==> Finished(sys, t)
  {
    forall i | i in sys.actions ensures Runs(sys, i) && Runs(sys', i) && StreamOf(sys, i) == StreamOf(sys', i) { }
    if Finished(sys, t) {
      var i :| Runs(sys, i) && StreamOf(sys, i) == t && sys.actions[i].pc.Gone?;
      assert Runs(sys', i) && StreamOf(sys', i) == t;
    }
    if Finished(sys', t) {
      var i :| Runs(sys', i) && StreamOf(sys', i) == t && sys'.actions[i].pc.Gone?;
      assert Runs(sys, i) && StreamOf(sys, i) == t;
    }
  }

  lemma AcceptKnows(dec: Decoder, sys: Sys, fs: seq<Frame>, f: Frame, t: nat)
    requires SysInv(sys) && Known(sys, fs, t) && Step(dec, sys, Accept(f)).Some?
    ensures Known(Step(dec, sys, Accept(f)).value, fs + [f], t)
  {
    var (c, sys') := (sys.c, Step(dec, sys, Accept(f)).value);
    assert sys' == sys.(c := ProcessFrame(dec, c, f).c);
    hide ProcessFrame, TableInv, QueueIs, DispatchInv, Determined, BitStep, Effect, Queues, Finished, Step, HasAction;
    FrameKeepsTable(dec, c, f);
    FrameMovesOn(dec, c, f);
    QueueStep(c, f, sys'.c, fs, t);
    DispatchStep(c, f, sys'.c, fs, t);
    SameFinished(sys, sys', t);
    if t != 0 {
      FrameBits(dec, c, f, t);
      StepDetermines(c, fs, f, sys'.c, t);
      OpenedSnoc(fs, f, t);
      ResetBit(c, f, sys'.c, t);
    }
  }

  lemma ResetBit(c: Conn, f: Frame, c': Conn, t: nat)
    requires BitStep(c, f, c', t)
    ensures Before(c', t).reset <==> Before(c, t).reset || IsRstStream(f, t)
  {
  }

  lemma FailKnows(dec: Decoder, sys: Sys, fs: seq<Frame>, f: Frame, t: nat)
    requires SysInv(sys) && Known(sys, fs, t) && Step(dec, sys, Fail(f)).Some?
    ensures Known(Step(dec, sys, Fail(f)).value, fs, t)
  {
    var (c, sys') := (sys.c, Step(dec, sys, Fail(f)).value);
    var c' := ProcessFrame(dec, c, f).c;
    assert sys' == sys.(c := c', begun := |c'.called|) && KeepsConnection(ProcessFrame(dec, c, f).fault);
    hide ProcessFrame, TableInv, KeepsConnection, Step, HasAction, Finished;
    ErrorKeepsTable(dec, c, f);
    FaultMovesOn(dec, c, f);
    SameFinished(sys, sys', t);
    assert SameHistory(Before(c, t), Before(c', t));
    hide MovedOn, Marked;
    SameKnown(c, c', fs, t);
  }

  /** Only header block and fields differ. */
  lemma SameKnown(c: Conn, c': Conn, fs: seq<Frame>, t: nat)
    requires SameHistory(Before(c, t), Before(c', t)) && c'.called == c.called
    requires t != 0 ==> (t in c'.streams <==> t in c.streams)
    ensures QueueIs(c, fs, t) ==> QueueIs(c', fs, t)
    ensures DispatchInv(c, fs, t) ==> DispatchInv(c', fs, t)
    ensures t != 0 && Determined(c, fs, t) ==> Determined(c', fs, t)
    ensures Before(c', t).reset == Before(c, t).reset
  {
    hide Before, BodyOf, HasTrailer, SeenData, Opened, OpenedSplit, Ended, PushedBy, Dropped, HasReset;
  }

  lemma StartKnows(dec: Decoder, sys: Sys, fs: seq<Frame>, t: nat)
    requires SysInv(sys) && Known(sys, fs, t) && StartNext(sys).Some?
    ensures Known(StartNext(sys).value, fs, t)
  {
    hide TableInv, HasAction, Marked, Known;
    var sys' := StartNext(sys).value;
    assert sys.begun !in sys.actions;
    StartAdds(sys);
    hide StartNext, SysInv;
    OneStarted(sys, sys', sys.begun, t);
    SameConnKnown(sys, sys', fs, t);
  }

  lemma StartAdds(sys: Sys)
    requires StartNext(sys).Some?
    ensures var (sys', k) := (StartNext(sys).value, sys.begun);
            && sys'.c == sys.c
            && (sys'.actions == sys.actions ||
                (k in sys'.actions && sys'.actions == sys.actions[k := sys'.actions[k]] && sys'.actions[k].pc.Waiting?))
  {
    hide HasStatus, StreamReset;
  }

  lemma SameConnKnown(sys: Sys, sys': Sys, fs: seq<Frame>, t: nat)
    requires Known(sys, fs, t) && sys'.c == sys.c && (Finished(sys', t) <==> Finished(sys, t))
    ensures Known(sys', fs, t)
  {
    hide QueueIs, DispatchInv, Determined, HasReset, Finished;
  }

  lemma OneStarted(sys: Sys, sys': Sys, k: nat, t: nat)
    requires sys'.c == sys.c && k !in sys.actions
    requires sys'.actions == sys.actions ||
             (k in sys'.actions && sys'.actions == sys.actions[k := sys'.actions[k]] && sys'.actions[k].pc.Waiting?)
    ensures Finished(sys', t) <==> Finished(sys, t)
  {
    forall i | Runs(sys, i) ensures Runs(sys', i) && sys'.actions[i] == sys.actions[i] { }
    forall i | Runs(sys', i) && sys'.actions[i].pc.Gone? ensures Runs(sys, i) && sys'.actions[i] == sys.actions[i] { }
    if Finished(sys, t) {
      var i :| Runs(sys, i) && StreamOf(sys, i) == t && sys.actions[i].pc.Gone?;
      assert Runs(sys', i) && StreamOf(sys', i) == t;
    }
    if Finished(sys', t) {
      var i :| Runs(sys', i) && StreamOf(sys', i) == t && sys'.actions[i].pc.Gone?;
      assert Runs(sys, i) && StreamOf(sys, i) == t;
    }
  }

  lemma ActedKnown(c: Conn, c': Conn, fs: seq<Frame>, t: nat)
    requires Acted(c, c')
    ensures QueueIs(c, fs, t) ==> QueueIs(c', fs, t)
    ensures DispatchInv(c, fs, t) ==> DispatchInv(c', fs, t)
    ensures t != 0 && Determined(c, fs, t) ==> Determined(c', fs, t)
  {
    assert t in c.streams ==> ActedStream(t, c.streams[t], c'.streams[t]);
    var (s, s') := (Before(c, t), Before(c', t));
    assert s'.taken + s'.queue == s.taken + s.queue && s.taken <= s'.taken;
    assert s' == s.(window := s'.window, reset := s'.reset, queue := s'.queue, taken := s'.taken);
    assert s.reset ==> s'.reset;
    hide Before, BodyOf, HasTrailer, SeenData, Opened, OpenedSplit, Ended, PushedBy, Dropped, HasReset, Acted,
      ActedStream;
    QueueShifts(s.pushed, s.taken, s.queue, s'.taken, s'.queue);
  }

  lemma QueueShifts(pushed: seq<Item>, taken: seq<Item>, queue: seq<Item>, taken': seq<Item>, queue': seq<Item>)
    requires taken <= taken' && taken' + queue' == taken + queue
    ensures taken <= pushed && queue == pushed[|taken|..] ==> taken' <= pushed && queue' == pushed[|taken'|..]
    ensures queue == [] ==> taken' == taken && queue' == []
  {
    if taken <= pushed && queue == pushed[|taken|..] {
      assert taken + queue == pushed;
      assert (taken' + queue')[..|taken'|] == taken' && (taken' + queue')[|taken'|..] == queue';
    }
    if queue == [] { assert taken + queue == taken; }
  }

  /** Only the end of an action resets a stream. */
  lemma ActionResets(sys: Sys, ev: Event, t: nat)
    requires ev.Act? || ev.Quit? || ev.Finish? || ev.Spend?
    requires ActionStep(sys, ev).Some? && t != 0
    ensures var sys' := ActionStep(sys, ev).value;
            && (Before(sys'.c, t).reset <==> Before(sys.c, t).reset || (ev.Finish? && StreamOf(sys, ev.i) == t))
            && sys'.c.called == sys.c.called && sys'.c.streams.Keys == sys.c.streams.Keys
            && sys'.actions.Keys == sys.actions.Keys && ev.i in sys.actions
            && (forall i :: i in sys.actions && i != ev.i ==> sys'.actions[i] == sys.actions[i])
            && !sys.actions[ev.i].pc.Gone? && (sys'.actions[ev.i].pc.Gone? <==> ev.Finish?)
  {
    var (s, a) := (sys.c.streams[StreamOf(sys, ev.i)], sys.actions[ev.i]);
    assert BodyStep(a, s).1.reset == s.reset;
    assert Reading(a.pc) ==> !BodyStep(a, s).0.pc.Gone?;
    hide BodyStep;
  }

  lemma ActionKnows(sys: Sys, fs: seq<Frame>, ev: Event, t: nat)
    requires ev.Act? || ev.Quit? || ev.Finish? || ev.Spend?
    requires SysInv(sys) && Known(sys, fs, t) && ActionStep(sys, ev).Some?
    ensures Known(ActionStep(sys, ev).value, fs, t)
  {
    var sys' := ActionStep(sys, ev).value;
    ActionKeeps(sys, ev);
    ActedKnown(sys.c, sys'.c, fs, t);
    if t != 0 {
      ActionResets(sys, ev, t);
      hide ActionStep, QueueIs, DispatchInv, Determined, HasReset, SysInv, Acted;
      ActionFinishes(sys, sys', ev, t);
    }
  }

  lemma ActionFinishes(sys: Sys, sys': Sys, ev: Event, t: nat)
    requires ev.Act? || ev.Quit? || ev.Finish? || ev.Spend?
    requires sys'.c.called == sys.c.called && sys'.c.streams.Keys == sys.c.streams.Keys
    requires sys'.actions.Keys == sys.actions.Keys && Runs(sys, ev.i)
    requires forall i :: i in sys.actions && i != ev.i ==> sys'.actions[i] == sys.actions[i]
    requires !sys.actions[ev.i].pc.Gone? && (sys'.actions[ev.i].pc.Gone? <==> ev.Finish?)
    ensures Finished(sys', t) <==> Finished(sys, t) || (ev.Finish? && StreamOf(sys, ev.i) == t)
  {
    assert forall i :: Runs(sys, i) <==> Runs(sys', i);
    if Finished(sys, t) {
      var i :| Runs(sys, i) && StreamOf(sys, i) == t && sys.actions[i].pc.Gone?;
      assert Runs(sys', i) && StreamOf(sys', i) == t && sys'.actions[i].pc.Gone?;
    }
    if ev.Finish? && StreamOf(sys, ev.i) == t {
      assert Runs(sys', ev.i) && StreamOf(sys', ev.i) == t && sys'.actions[ev.i].pc.Gone?;
    }
    if Finished(sys', t) {
      var i :| Runs(sys', i) && StreamOf(sys', i) == t && sys'.actions[i].pc.Gone?;
      assert Runs(sys, i) && StreamOf(sys, i) == t;
    }
  }

  lemma StepKnows(dec: Decoder, sys: Sys, evs: seq<Event>, ev: Event, t: nat)
    requires SysInv(sys) && Known(sys, Frames(evs), t) && Step(dec, sys, ev).Some?
    ensures Known(Step(dec, sys, ev).value, Frames(evs + [ev]), t)
  {
    OneMoreEvent(dec, sys, evs, ev);
    hide SysInv, Known, ProcessFrame, StartNext, ActionStep, KeepsConnection, Frames;
    match ev
    case Accept(f) => AcceptKnows(dec, sys, Frames(evs), f, t);
    case Fail(f) => FailKnows(dec, sys, Frames(evs), f, t);
    case Start => StartKnows(dec, sys, Frames(evs), t);
    case _ => ActionKnows(sys, Frames(evs), ev, t);
  }

  lemma StartIsKnown(t: nat)
    ensures SysInv(START) && Known(START, [], t)
  {
    assert INIT.called == [] && multiset(INIT.called) == multiset{};
    assert !Opened([], t) && !OpenedSplit([], t) && !Ended([], t) && PushedBy([], t) == [] && !HasReset([], t);
  }

  /** What the frames accepted and the actions done say of every stream, in every run. */
  lemma {:induction false} RunKnows(dec: Decoder, evs: seq<Event>, t: nat)
    requires Run(dec, START, evs).Some?
    ensures SysInv(Run(dec, START, evs).value) && Known(Run(dec, START, evs).value, Frames(evs), t)
    decreases |evs|
  {
    if evs == [] {
      StartIsKnown(t);
    } else {
      hide SysInv, Known, Step;
      var (front, ev) := (evs[..|evs| - 1], evs[|evs| - 1]);
      assert front + [ev] == evs;
      RunKnows(dec, front, t);
      StepKeepsSys(dec, Run(dec, START, front).value, ev);
      StepKnows(dec, Run(dec, START, front).value, front, ev, t);
    }
  }

  // ----- main results, over every run -----

  /** Request body: what was put in the queue of a stream are its DATA payloads without padding, in order,
      with their total as received count; the end marker at most once, after everything else and only on
      an ended stream, which has it once its header block is complete.  What the actions took, together,
      is a front of it. */
  lemma RequestBody(dec: Decoder, evs: seq<Event>, t: nat)
    requires Run(dec, START, evs).Some? && t in Run(dec, START, evs).value.c.streams && t != 0
    ensures var (s, body) := (Run(dec, START, evs).value.c.streams[t], BodyOf(Frames(evs), t));
            && (s.pushed == body || s.pushed == body + [EndMark])
            && EndMark !in body && s.contentReceived == Bytes(body)
            && (EndMark in s.pushed ==> s.streamEnd)
            && (s.streamEnd && (s.headerEnd || !s.headerReceived) ==> EndMark in s.pushed)
            && (s.taken <= body || s.taken == body + [EndMark])
  {
    RunKnows(dec, evs, t);
    BodyHasNoEnd(Frames(evs), t);
    var (s, body) := (Run(dec, START, evs).value.c.streams[t], BodyOf(Frames(evs), t));
    assert QueueInv(s);
    BytesPush(body, EndMark);
    hide Run, Frames, BodyOf, Bytes;
    if s.taken <= s.pushed && |s.taken| <= |body| { assert s.taken == body[..|s.taken|]; }
  }

  /** The queue itself: what is not yet taken, or nothing once an RST_STREAM has come, unless the stream was
      opened over CONTINUATION. */
  lemma RunDetermines(dec: Decoder, evs: seq<Event>, t: nat)
    requires Run(dec, START, evs).Some? && t != 0
    ensures Determined(Run(dec, START, evs).value.c, Frames(evs), t)
  {
    RunKnows(dec, evs, t);
  }

  /** A stream is reset exactly when an RST_STREAM for it was accepted or an action of it is done. */
  lemma ResetIff(dec: Decoder, evs: seq<Event>, t: nat)
    requires Run(dec, START, evs).Some? && t != 0
    ensures var sys := Run(dec, START, evs).value;
            StreamReset(sys.c, t) <==> HasReset(Frames(evs), t) || Finished(sys, t)
  {
    RunKnows(dec, evs, t);
    hide Run, Frames, HasReset, Finished;
  }

  /** A stream is queued for its action at most twice; twice exactly when a complete END_STREAM trailer was
      accepted after a DATA frame, at least once exactly when its state says so. */
  lemma DispatchCount(dec: Decoder, evs: seq<Event>, t: nat)
    requires Run(dec, START, evs).Some?
    ensures var c := Run(dec, START, evs).value.c;
            && multiset(c.called)[t] <= 2
            && (multiset(c.called)[t] == 2 <==> HasTrailer(Frames(evs), t))
            && (multiset(c.called)[t] >= 1 <==> t in c.streams && c.streams[t].actionCalled)
  {
    RunKnows(dec, evs, t);
    hide Run, Frames, HasTrailer;
  }

  /** Keys are 0 or odd, and an open block marked on stream 0 is open on some other stream. */
  lemma TableShape(dec: Decoder, evs: seq<Event>)
    requires Run(dec, START, evs).Some?
    ensures var c := Run(dec, START, evs).value.c;
            && (forall t :: t in c.streams ==> t == 0 || t % 2 == 1)
            && (HeaderOpen(c) ==>
                  exists t :: t in c.streams && t != 0 && c.streams[t].headerReceived && !c.streams[t].headerEnd)
  {
    RunKnows(dec, evs, 0);
    var c := Run(dec, START, evs).value.c;
    hide Run, Known;
    if HeaderOpen(c) {
      var t :| t in c.streams && t != 0 && BlockIsOpen(c.streams[t]);
    }
  }

  predicate Grown(t: nat, s: Stream, s': Stream) {
    FlagsGrow(s, s') && (t != 0 && s.headerReceived ==> s'.headerReceived)
  }

  lemma StepGrows(dec: Decoder, sys: Sys, ev: Event, t: nat)
    requires SysInv(sys) && Step(dec, sys, ev).Some? && t in sys.c.streams
    ensures t in Step(dec, sys, ev).value.c.streams
    ensures Grown(t, sys.c.streams[t], Step(dec, sys, ev).value.c.streams[t])
  {
    var sys' := Step(dec, sys, ev).value;
    hide ProcessFrame, TableInv, StartNext, ActionStep, KeepsConnection, Marked, HasAction;
    match ev
    case Accept(f) =>
      FrameKeepsTable(dec, sys.c, f);
      assert Effect(sys.c, f, sys'.c, t);
    case Fail(f) =>
      ErrorKeepsTable(dec, sys.c, f);
      assert SameHistory(Before(sys.c, t), Before(sys'.c, t));
    case Start => StartKeeps(sys);
    case _ =>
      ActionKeeps(sys, ev);
      assert ActedStream(t, sys.c.streams[t], sys'.c.streams[t]);
  }

  /** Streams never leave the table and, stream 0 aside, no state bit is ever cleared. */
  lemma {:induction false} BitsOnlyGrow(dec: Decoder, sys: Sys, evs: seq<Event>, t: nat)
    requires SysInv(sys) && Run(dec, sys, evs).Some? && t in sys.c.streams
    ensures var c' := Run(dec, sys, evs).value.c;
            && t in c'.streams && FlagsGrow(sys.c.streams[t], c'.streams[t])
            && (t != 0 && sys.c.streams[t].headerReceived ==> c'.streams[t].headerReceived)
    decreases |evs|
  {
    if evs != [] {
      var (front, ev) := (evs[..|evs| - 1], evs[|evs| - 1]);
      hide SysInv, Step;
      BitsOnlyGrow(dec, sys, front, t);
      RunKeepsSys(dec, sys, front);
      StepGrows(dec, Run(dec, sys, front).value, ev, t);
    }
  }

  // ----- resets over runs -----

  /** An RST_STREAM is to drop the body unless the request has ended.  By how the stream was opened, how the
      request ended and what the actions have left in the queue: when it fails, a stream opened over
      CONTINUATION keeps what is there, and one opened by a single HEADERS frame loses a body that is
      complete. */
  lemma ResetInRunIff(dec: Decoder, evs: seq<Event>, f: Frame)
    requires f.hdr.typ == 3 && Run(dec, START, evs + [Accept(f)]).Some?
    ensures var (t, fs) := (f.hdr.streamId, Frames(evs));
            var (r, r') := (Run(dec, START, evs), Run(dec, START, evs + [Accept(f)]).value);
            && t != 0 && r.Some? && t in r.value.c.streams && t in r'.c.streams
            && var (s, q') := (r.value.c.streams[t], r'.c.streams[t].queue);
               var (split, ended) := (OpenedSplit(fs, t), Ended(fs, t));
               && |s.taken| <= |PushedBy(fs, t)|
               && s.queue == (if Dropped(fs, t) then [] else PushedBy(fs, t)[|s.taken|..])
               && (q' == (if ended then s.queue else []) <==> s.queue == [] || split == ended)
               && (s.queue != [] && split && !ended ==> q' == s.queue)
               && (s.queue != [] && !split && ended ==> q' == [])
  {
    var t := f.hdr.streamId;
    OneMoreEvent(dec, START, evs, Accept(f));
    var (sys, sys') := (Run(dec, START, evs).value, Run(dec, START, evs + [Accept(f)]).value);
    assert ProcessFrame(dec, sys.c, f) == Go(sys'.c) && t in WithConnection(sys.c).streams && t != 0;
    RunKnows(dec, evs, t);
    FrameBits(dec, sys.c, f, t);
    hide Run, ProcessFrame, Frames, Opened, Ended, OpenedSplit, HasReset, SysInv, PushedBy, QueueIs, DispatchInv;
    hide EndItems, DataItems, Finished;
    assert IsRstStream(f, t);
  }
}
