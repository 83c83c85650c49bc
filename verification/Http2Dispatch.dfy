/** The dispatch of queued actions at the end of a call of the receive loop. */
module Http2Dispatch {
  import opened Basics
  import opened Http2Frame
  import opened Http2Proto
  import opened Http2Table
  import opened Http2Runs
  import opened Http2Faults
  import opened Http2Bits
  import opened Http2Actions
  import opened Http2Requests
  import opened Http2Interference
  import opened Http2Feed

  // ----- one call -----

  /** The queued streams whose action is started: those not reset by the time the call ends. */
  function Started(c: Conn, ids: seq<nat>): seq<nat> {
    if ids == [] then [] else (if StreamReset(c, ids[0]) then [] else [ids[0]]) + Started(c, ids[1..])
  }

  lemma {:induction false} StartedAppend(c: Conn, a: seq<nat>, b: seq<nat>)
    ensures Started(c, a + b) == Started(c, a) + Started(c, b)
    decreases |a|
  {
    if a == [] {
      assert a + b == b;
    } else {
      assert (a + b)[1..] == a[1..] + b;
      StartedAppend(c, a[1..], b);
    }
  }

  lemma {:induction false} StartedShrinks(c: Conn, c': Conn, ids: seq<nat>)
    requires forall id :: id in ids && StreamReset(c, id) ==> StreamReset(c', id)
    ensures |Started(c', ids)| <= |Started(c, ids)|
    ensures Started(c', ids) == Started(c, ids) <==>
            forall id :: id in ids && StreamReset(c', id) ==> StreamReset(c, id)
    decreases |ids|
  {
    if ids != [] {
      hide StreamReset;
      var (x, rest) := (ids[0], ids[1..]);
      StartedShrinks(c, c', rest);
      assert forall id :: id in ids <==> id == x || id in rest;
      var (s, s') := (Started(c, rest), Started(c', rest));
      if StreamReset(c', x) && !StreamReset(c, x) {
        assert |Started(c', ids)| < |Started(c, ids)|;
      } else if StreamReset(c, x) {
        assert Started(c, ids) == s && Started(c', ids) == s';
      } else {
        assert Started(c, ids)[1..] == s && Started(c', ids)[1..] == s';
      }
    }
  }

  lemma StartedSplit(c1: Conn, c2: Conn, q1: seq<nat>, q2: seq<nat>)
    requires forall id :: id in q1 && StreamReset(c1, id) ==> StreamReset(c2, id)
    ensures Started(c1, q1) + Started(c2, q2) == Started(c2, q1 + q2)
       <==> forall id :: id in q1 && StreamReset(c2, id) ==> StreamReset(c1, id)
  {
    StartedAppend(c2, q1, q2);
    StartedShrinks(c1, c2, q1);
    hide Started, StreamReset;
    var (x, y, z) := (Started(c1, q1), Started(c2, q1), Started(c2, q2));
    if x + z == y + z {
      assert |x + z| == |y + z|;
      assert x == (x + z)[..|x|] && y == (y + z)[..|y|];
    }
  }

  /** The actions started, and whether the dispatch ended in an exception: a field `:status` raises
      WRONG_HEADER, which closes the connection. */
  datatype Starts = Starts(ids: seq<nat>, refused: bool)

  function Starting(c: Conn, ids: seq<nat>): Starts {
    if ids == [] then Starts([], false)
    else if StreamReset(c, ids[0]) then Starting(c, ids[1..])
    else if HasStatus(c, ids[0]) then Starts([], true)
    else
      var rest := Starting(c, ids[1..]);
      Starts([ids[0]] + rest.ids, rest.refused)
  }

  function NewlyCalled(c: Conn, c': Conn): seq<nat> {
    if |c.called| <= |c'.called| then c'.called[|c.called|..] else []
  }

  datatype Called = Called(fed: Fed, started: seq<nat>)

  /** Http2StreamProto: the loop over the buffer, then the dispatch unless an exception has left the loop. */
  function Call(dec: Decoder, c: Conn, buf: seq<byte>): Called {
    var fed := Loop(dec, c, buf);
    if fed.outcome.Go? || fed.outcome.Closing? then
      var st := Starting(fed.outcome.c, NewlyCalled(c, fed.outcome.c));
      Called(if st.refused then fed.(outcome := Thrown(fed.outcome.c, Fault(WRONG_HEADER, 0), 0)) else fed, st.ids)
    else Called(fed, [])
  }

  /** Nothing is refused exactly when no action to be started has a field `:status`. */
  lemma {:induction false} StartingIff(c: Conn, ids: seq<nat>)
    ensures Starting(c, ids).refused <==> exists id :: id in ids && !StreamReset(c, id) && HasStatus(c, id)
    ensures Starting(c, ids).ids <= Started(c, ids)
    ensures !Starting(c, ids).refused ==> Starting(c, ids).ids == Started(c, ids)
    decreases |ids|
  {
    if ids != [] {
      hide StreamReset, HasStatus;
      StartingIff(c, ids[1..]);
      assert forall id :: id in ids <==> id == ids[0] || id in ids[1..];
    }
  }

  /** The actions started are those due ahead of the first stream, not reset, with a field `:status`; all of
      them if there is none. */
  lemma {:induction false} StartingEnds(c: Conn, ids: seq<nat>) returns (k: nat)
    ensures k <= |ids| && Starting(c, ids) == Starts(Started(c, ids[..k]), k < |ids|)
    ensures forall j :: 0 <= j < k ==> StreamReset(c, ids[j]) || !HasStatus(c, ids[j])
    ensures k < |ids| ==> !StreamReset(c, ids[k]) && HasStatus(c, ids[k])
    decreases |ids|
  {
    hide StreamReset, HasStatus;
    if ids == [] || (!StreamReset(c, ids[0]) && HasStatus(c, ids[0])) {
      k := 0;
      assert ids[..0] == [];
    } else {
      var n := StartingEnds(c, ids[1..]);
      k := n + 1;
      assert ids[..k][0] == ids[0] && ids[..k][1..] == ids[1..][..n];
      assert forall j :: 0 <= j < n ==> ids[1..][j] == ids[j + 1];
      forall j | 0 <= j < k ensures StreamReset(c, ids[j]) || !HasStatus(c, ids[j]) {
        if j > 0 { assert ids[1..][j - 1] == ids[j]; }
      }
    }
  }

  // ----- two reads and one -----

  lemma {:induction false} SameStarted(c: Conn, d: Conn, ids: seq<nat>)
    requires forall id :: id in ids ==> (StreamReset(c, id) <==> StreamReset(d, id))
    ensures Started(c, ids) == Started(d, ids)
    decreases |ids|
  {
    if ids != [] {
      hide StreamReset;
      SameStarted(c, d, ids[1..]);
    }
  }

  lemma ResetNotQueued(dec: Decoder, d: Conn, f: Frame, t: nat)
    requires TableInv(d) && ProcessFrame(dec, d, f).Go? && StreamReset(d, t) && d.streams[t].actionCalled
    ensures var d' := ProcessFrame(dec, d, f).c;
            && StreamReset(d', t) && d'.streams[t].actionCalled
            && d.called <= d'.called && t !in d'.called[|d.called|..]
  {
    FrameKeepsTable(dec, d, f);
    var d' := ProcessFrame(dec, d, f).c;
    assert Effect(d, f, d', t);
    if DataOrHeaders(f) { AcceptedIsOpen(dec, d, f); }
    hide ProcessFrame, TableInv, EndOfStream, EndOfHeader, DataItems;
    assert t == f.hdr.streamId ==> !Queues(d, f, t);
  }

  /** A stream reset after its action was called is not queued any more. */
  lemma {:induction false} ResetNeverQueued(dec: Decoder, d: Conn, fs: seq<Frame>, t: nat)
    requires TableInv(d) && RunFrames(dec, d, fs).Go? && StreamReset(d, t) && d.streams[t].actionCalled
    ensures var d' := RunFrames(dec, d, fs).c;
            && StreamReset(d', t) && d'.streams[t].actionCalled
            && d.called <= d'.called && t !in d'.called[|d.called|..]
    decreases |fs|
  {
    if fs != [] {
      var front := fs[..|fs| - 1];
      hide *;
      assert front + [fs[|fs| - 1]] == fs;
      RunSnoc(dec, d, front, fs[|fs| - 1]);
      ResetNeverQueued(dec, d, front, t);
      RunKeepsTable(dec, d, front);
      var (d1, d') := (RunFrames(dec, d, front).c, RunFrames(dec, d, fs).c);
      ResetNotQueued(dec, d1, fs[|fs| - 1], t);
      Later(d.called, d1.called, d'.called, t);
    } else {
      assert d.called[|d.called|..] == [];
    }
  }

  lemma Later(a: seq<nat>, b: seq<nat>, d: seq<nat>, id: nat)
    requires a <= b <= d
    ensures a <= d && (id in d[|a|..] <==> id in b[|a|..] || id in d[|b|..])
  {
    assert d[|a|..] == b[|a|..] + d[|b|..];
  }

  lemma CallGoes(dec: Decoder, c: Conn, buf: seq<byte>)
    requires Call(dec, c, buf).fed.outcome.Go?
    ensures var (r, c') := (Call(dec, c, buf), Call(dec, c, buf).fed.outcome.c);
            && r.fed == Loop(dec, c, buf) && r.fed.residual == Cut(buf).residual
            && RunFrames(dec, c, Cut(buf).frames) == Go(c')
            && Starting(c', NewlyCalled(c, c')) == Starts(r.started, false)
  {
    LoopRunsTheFrames(dec, c, buf);
    hide Loop, RunFrames, Cut, Starting, NewlyCalled;
  }

  /** What two reads and one queue, and which streams they find reset. */
  lemma CallsOfReads(dec: Decoder, c: Conn, fs1: seq<Frame>, c1: Conn, d1: Conn, fs2: seq<Frame>, c2: Conn, e: Conn)
    requires TableInv(c) && RunFrames(dec, c, fs1) == Go(c1) && Acted(c1, d1)
    requires RunFrames(dec, c1, fs2) == Go(e) && RunFrames(dec, d1, fs2) == Go(c2)
    ensures c2.called == e.called && NewlyCalled(c, e) == NewlyCalled(c, c1) + NewlyCalled(d1, c2)
    ensures forall id: nat :: StreamReset(c1, id) <==> StreamReset(c, id) || HasReset(fs1, id)
    ensures forall id: nat :: StreamReset(e, id) <==> StreamReset(c1, id) || HasReset(fs2, id)
    ensures forall id :: id in NewlyCalled(d1, c2) ==> (StreamReset(c2, id) <==> StreamReset(e, id))
  {
    SameTable(false, c1);
    ActedIsBehind(c1, c1, d1);
    BehindRun(dec, c1, d1, fs2);
    RunKeepsTable(dec, c, fs1);
    ActedKeepsTable(c1, d1);
    CalledGrows(dec, c, fs1);
    CalledGrows(dec, c1, fs2);
    CalledGrows(dec, d1, fs2);
    assert c2.called == e.called && d1.called == c1.called;
    forall id: nat
      ensures StreamReset(c1, id) <==> StreamReset(c, id) || HasReset(fs1, id)
      ensures StreamReset(e, id) <==> StreamReset(c1, id) || HasReset(fs2, id)
      ensures StreamReset(c2, id) <==> StreamReset(d1, id) || HasReset(fs2, id)
      ensures StreamReset(d1, id) && !StreamReset(c1, id) ==> id !in NewlyCalled(d1, c2)
      ensures StreamReset(c1, id) ==> StreamReset(d1, id)
    {
      ResetInCall(dec, c, fs1, id);
      ResetInCall(dec, c1, fs2, id);
      ResetInCall(dec, d1, fs2, id);
      ResetBetween(c1, d1, id);
      if StreamReset(d1, id) && !StreamReset(c1, id) { ResetNeverQueued(dec, d1, fs2, id); }
    }
    hide RunFrames, TableInv, Behind, Acted, HasReset, StreamReset;
    assert c1.called[|c.called|..] + c2.called[|c1.called|..] == c2.called[|c.called|..];
  }

  lemma ResetBetween(c: Conn, d: Conn, t: nat)
    requires Acted(c, d)
    ensures StreamReset(c, t) ==> StreamReset(d, t)
    ensures StreamReset(d, t) && !StreamReset(c, t) ==> d.streams[t].actionCalled
  {
    assert t in c.streams ==> ActedStream(t, c.streams[t], d.streams[t]);
  }

  predicate OnlyActions(evs: seq<Event>) {
    forall i :: 0 <= i < |evs| ==> evs[i].Act? || evs[i].Quit? || evs[i].Finish? || evs[i].Spend?
  }

  lemma NothingActed(c: Conn)
    ensures Acted(c, c)
  {
  }

  /** Any number of steps of any actions is such an activity. */
  lemma {:induction false} ActivityIsActed(dec: Decoder, sys: Sys, evs: seq<Event>)
    requires SysInv(sys) && OnlyActions(evs) && Run(dec, sys, evs).Some?
    ensures Acted(sys.c, Run(dec, sys, evs).value.c)
    decreases |evs|
  {
    if evs == [] {
      NothingActed(sys.c);
    } else {
      hide SysInv, Acted, ActionStep, ProcessFrame;
      var (front, ev) := (evs[..|evs| - 1], evs[|evs| - 1]);
      ActivityIsActed(dec, sys, front);
      RunKeepsSys(dec, sys, front);
      ActionKeeps(Run(dec, sys, front).value, ev);
      ActedTransitive(sys.c, Run(dec, sys, front).value.c, Run(dec, sys, evs).value.c);
    }
  }

  /** Two reads, with any activity of the actions in between, start the same actions as one read of all the
      bytes exactly when the second brings no RST_STREAM for a stream that the first has queued, unless
      that stream had been reset before: in one read the reset comes ahead of the dispatch and suppresses
      the action. */
  lemma DispatchAcrossReads(dec: Decoder, c: Conn, a: seq<byte>, d1: Conn, b: seq<byte>)
    requires TableInv(c) && Call(dec, c, a).fed.outcome.Go? && Call(dec, c, a + b).fed.outcome.Go?
    requires Acted(Call(dec, c, a).fed.outcome.c, d1)
    requires Call(dec, d1, Call(dec, c, a).fed.residual + b).fed.outcome.Go?
    ensures var (first, one) := (Call(dec, c, a), Call(dec, c, a + b));
            var (second, rest) := (Call(dec, d1, first.fed.residual + b), Cut(a).residual + b);
            && second.fed.outcome.c.called == one.fed.outcome.c.called
            && second.fed.residual == one.fed.residual
            && (first.started + second.started == one.started <==>
                forall id :: id in NewlyCalled(c, first.fed.outcome.c) && HasReset(Cut(rest).frames, id) ==>
                  StreamReset(c, id) || HasReset(Cut(a).frames, id))
  {
    var (first, one) := (Call(dec, c, a), Call(dec, c, a + b));
    var second := Call(dec, d1, first.fed.residual + b);
    var (c1, e, c2) := (first.fed.outcome.c, one.fed.outcome.c, second.fed.outcome.c);
    var (fs1, fs2) := (Cut(a).frames, Cut(Cut(a).residual + b).frames);
    CallGoes(dec, c, a);
    CallGoes(dec, d1, first.fed.residual + b);
    CallGoes(dec, c, a + b);
    TwoReads(dec, c, a, b);
    LoopRunsTheFrames(dec, c1, first.fed.residual + b);
    hide Loop, Cut, Started, Starting, HasReset, StreamReset, HasStatus, Call;
    var (q1, q2) := (NewlyCalled(c, c1), NewlyCalled(d1, c2));
    StartingIff(c1, q1);
    StartingIff(c2, q2);
    StartingIff(e, NewlyCalled(c, e));
    CallsOfReads(dec, c, fs1, c1, d1, fs2, c2, e);
    hide RunFrames, TableInv, Behind, Acted;
    SameStarted(c2, e, q2);
    StartedAppend(e, q1, q2);
    StartedSplit(c1, e, q1, q2);
  }

  // ----- actions lost to a stream error -----

  /** Action i was queued in the current call, for a stream that is not reset. */
  predicate Due(sys: Sys, i: nat) { sys.begun <= i < |sys.c.called| && !StreamReset(sys.c, sys.c.called[i]) }

  function Dispatches(n: nat): seq<Event> { seq(n, _ => Start) }

  lemma OneDispatch(dec: Decoder, sys: Sys, n: nat)
    ensures Run(dec, sys, Dispatches(n + 1)) ==
            var r := Run(dec, sys, Dispatches(n)); if r.Some? then StartNext(r.value) else None
  {
    assert Dispatches(n + 1) == Dispatches(n) + [Start];
    OneMoreEvent(dec, sys, Dispatches(n), Start);
  }

  /** When a call ends in good order, exactly the actions due are started. */
  lemma {:induction false} DispatchStarts(dec: Decoder, sys: Sys, n: nat)
    requires sys.begun + n <= |sys.c.called|
    requires forall i: nat :: Due(sys, i) ==> !HasStatus(sys.c, sys.c.called[i])
    ensures var r := Run(dec, sys, Dispatches(n));
            && r.Some? && r.value.c == sys.c && r.value.begun == sys.begun + n
            && forall i: nat :: i in r.value.actions <==> i in sys.actions || (i < sys.begun + n && Due(sys, i))
  {
    if n == 0 {
      assert Dispatches(0) == [];
    } else {
      DispatchStarts(dec, sys, n - 1);
      OneDispatch(dec, sys, n - 1);
      hide Run, HasStatus, StreamReset;
      var i := sys.begun + n - 1;
      assert Due(sys, i) <==> !StreamReset(sys.c, sys.c.called[i]);
    }
  }

  lemma StepStartsNoOld(dec: Decoder, sys: Sys, ev: Event, i: nat)
    requires SysInv(sys) && Step(dec, sys, ev).Some? && i < sys.begun && i !in sys.actions
    ensures var sys' := Step(dec, sys, ev).value;
            i < sys'.begun && i !in sys'.actions && sys.c.called <= sys'.c.called
  {
    hide ProcessFrame, TableInv, KeepsConnection, HasAction;
    match ev
    case Accept(f) => FrameMovesOn(dec, sys.c, f);
    case Fail(f) => FaultMovesOn(dec, sys.c, f);
    case Start => StartKeeps(sys);
    case _ => ActionKeeps(sys, ev);
  }

  /** What a call has passed over is never started. */
  lemma {:induction false} NeverStarted(dec: Decoder, sys: Sys, evs: seq<Event>, i: nat)
    requires SysInv(sys) && Run(dec, sys, evs).Some? && i < sys.begun && i !in sys.actions
    ensures var sys' := Run(dec, sys, evs).value;
            i < sys'.begun && i !in sys'.actions && sys.c.called <= sys'.c.called
    decreases |evs|
  {
    if evs != [] {
      var front := evs[..|evs| - 1];
      hide SysInv, Step;
      NeverStarted(dec, sys, front, i);
      RunKeepsSys(dec, sys, front);
      StepStartsNoOld(dec, Run(dec, sys, front).value, evs[|evs| - 1], i);
    }
  }

  lemma FailStops(dec: Decoder, sys: Sys, f: Frame)
    requires SysInv(sys) && Step(dec, sys, Fail(f)).Some?
    ensures var sys1 := Step(dec, sys, Fail(f)).value;
            && SysInv(sys1) && sys1.c.called == sys.c.called && sys1.actions == sys.actions
              && sys1.begun == |sys.c.called|
  {
    StepKeepsSys(dec, sys, Fail(f));
    ErrorKeepsTable(dec, sys.c, f);
    hide ProcessFrame, TableInv, KeepsConnection, HasAction;
  }

  lemma LostForGood(dec: Decoder, sys: Sys, f: Frame, later: seq<Event>)
    requires SysInv(sys) && Step(dec, sys, Fail(f)).Some? && Run(dec, Step(dec, sys, Fail(f)).value, later).Some?
    ensures var after := Run(dec, Step(dec, sys, Fail(f)).value, later).value;
            forall i: nat :: sys.begun <= i < |sys.c.called| ==>
              && i !in after.actions && i < |after.c.called| && after.c.called[i] == sys.c.called[i]
              && after.c.called[i] in after.c.streams && after.c.streams[after.c.called[i]].actionCalled
  {
    hide ProcessFrame, TableInv, HasAction, StreamReset, KeepsConnection;
    FailStops(dec, sys, f);
    assert forall i :: i in sys.actions ==> i < sys.begun;
    hide Step, Run;
    var sys1 := Step(dec, sys, Fail(f)).value;
    var after := Run(dec, sys1, later).value;
    RunKeepsSys(dec, sys1, later);
    forall i: nat | sys.begun <= i < |sys.c.called|
      ensures i !in after.actions && i < |after.c.called| && after.c.called[i] == sys.c.called[i]
      ensures after.c.called[i] in after.c.streams && after.c.streams[after.c.called[i]].actionCalled
    {
      NeverStarted(dec, sys1, later, i);
    }
  }

  lemma DueIff(dec: Decoder, evs: seq<Event>, i: nat)
    requires Run(dec, START, evs).Some?
    ensures var sys := Run(dec, START, evs).value;
            Due(sys, i) <==> sys.begun <= i < |sys.c.called| && !Excused(sys, Frames(evs), sys.c.called[i])
  {
    StartIsSys();
    RunKeepsSys(dec, START, evs);
    var sys := Run(dec, START, evs).value;
    if i < |sys.c.called| {
      assert sys.c.called[i] != 0 by { hide Run; }
      ResetIff(dec, evs, sys.c.called[i]);
    }
    hide Run, Frames, HasReset, Finished, StreamReset;
  }

  /** A stream error starts no action, also none that frames ahead of it in the same call have queued.  An
      action is due when its stream has neither got an RST_STREAM nor finished another action.  Those due
      are lost: they are not started in any continuation, and their streams stay marked as called. */
  lemma ActionsLostIff(dec: Decoder, evs: seq<Event>, f: Frame, later: seq<Event>)
    requires Run(dec, START, evs).Some? && Step(dec, Run(dec, START, evs).value, Fail(f)).Some?
    requires Run(dec, Step(dec, Run(dec, START, evs).value, Fail(f)).value, later).Some?
    ensures var sys := Run(dec, START, evs).value;
            var after := Run(dec, Step(dec, sys, Fail(f)).value, later).value;
            forall i: nat :: sys.begun <= i < |sys.c.called| ==>
              && i !in after.actions && i < |after.c.called| && after.c.called[i] == sys.c.called[i]
              && (Due(sys, i) <==> !Excused(sys, Frames(evs), sys.c.called[i]))
              && after.c.called[i] in after.c.streams && after.c.streams[after.c.called[i]].actionCalled
  {
    hide *;
    var sys := Run(dec, START, evs).value;
    StartIsSys();
    RunKeepsSys(dec, START, evs);
    LostForGood(dec, sys, f, later);
    var after := Run(dec, Step(dec, sys, Fail(f)).value, later).value;
    forall i: nat | sys.begun <= i < |sys.c.called|
      ensures i !in after.actions && i < |after.c.called| && after.c.called[i] == sys.c.called[i]
      ensures Due(sys, i) <==> !Excused(sys, Frames(evs), sys.c.called[i])
      ensures after.c.called[i] in after.c.streams && after.c.streams[after.c.called[i]].actionCalled
    {
      DueIff(dec, evs, i);
    }
  }

  ghost predicate Excused(sys: Sys, fs: seq<Frame>, t: nat) { HasReset(fs, t) || Finished(sys, t) }

  predicate BringsTrailer(fs: seq<Frame>, id: nat) { exists i :: 0 <= i < |fs| && IsTrailer(fs[i], id) }

  lemma TrailerSnoc(fs: seq<Frame>, f: Frame, id: nat)
    ensures BringsTrailer(fs + [f], id) <==> BringsTrailer(fs, id) || IsTrailer(f, id)
  {
    hide IsTrailer;
    var gs := fs + [f];
    assert gs[|fs|] == f && forall i :: 0 <= i < |fs| ==> gs[i] == fs[i];
    if BringsTrailer(fs, id) {
      var i :| 0 <= i < |fs| && IsTrailer(fs[i], id);
      assert IsTrailer(gs[i], id);
    }
    if IsTrailer(f, id) { assert IsTrailer(gs[|fs|], id); }
  }

  lemma Newly(a: seq<nat>, b: seq<nat>, d: seq<nat>, x: nat, id: nat)
    requires a <= b && (d == b || d == b + [x])
    ensures a <= d && b <= d && (id in d[|a|..] <==> id in b[|a|..] || id in d[|b|..])
  {
    assert d[|a|..] == b[|a|..] + d[|b|..];
  }

  lemma MarkedStep(c: Conn, f: Frame, c': Conn, id: nat)
    requires FrameOk(c, f, c') && id in c.streams && c.streams[id].actionCalled
    ensures id in c'.streams && c'.streams[id].actionCalled
    ensures c'.called == c.called || c'.called == c.called + [f.hdr.streamId]
    ensures id in c'.called[|c.called|..] <==> IsTrailer(f, id)
  {
    hide TableInv, EndOfStream, EndOfHeader, DataItems;
    assert Effect(c, f, c', id);
  }

  // ----- a second time -----

  /** From `sys` on: the stream stays marked and has been queued if and only if a trailer came. */
  ghost predicate Again(c: Conn, c1: Conn, fs: seq<Frame>, id: nat) {
    && c.called <= c1.called
    && id in c1.streams && c1.streams[id].actionCalled
    && (id in c1.called[|c.called|..] <==> BringsTrailer(fs, id))
  }

  lemma AgainStep(c: Conn, c1: Conn, fs: seq<Frame>, f: Frame, c': Conn, id: nat)
    requires Again(c, c1, fs, id) && FrameOk(c1, f, c')
    ensures Again(c, c', fs + [f], id)
  {
    hide FrameOk, IsTrailer, BringsTrailer;
    MarkedStep(c1, f, c', id);
    TrailerSnoc(fs, f, id);
    Newly(c.called, c1.called, c'.called, f.hdr.streamId, id);
  }

  lemma QuietAgain(dec: Decoder, c: Conn, sys: Sys, fs: seq<Frame>, ev: Event, id: nat)
    requires SysInv(sys) && !ev.Accept? && Step(dec, sys, ev).Some? && Again(c, sys.c, fs, id)
    ensures Again(c, Step(dec, sys, ev).value.c, fs, id)
  {
    hide ProcessFrame, TableInv, KeepsConnection, HasAction, BringsTrailer, StartNext, ActionStep;
    if ev.Fail? {
      ErrorKeepsTable(dec, sys.c, ev.f);
      assert SameHistory(Before(sys.c, id), Before(Step(dec, sys, ev).value.c, id));
    } else if ev.Start? {
      StartKeeps(sys);
    } else {
      ActionKeeps(sys, ev);
      assert ActedStream(id, sys.c.streams[id], Step(dec, sys, ev).value.c.streams[id]);
    }
  }

  /** A stream marked as called is queued again by a run exactly when the run brings it a complete trailer. */
  lemma {:induction false} QueuedAgainIff(dec: Decoder, sys: Sys, evs: seq<Event>, id: nat)
    requires SysInv(sys) && Run(dec, sys, evs).Some? && id in sys.c.streams && sys.c.streams[id].actionCalled
    ensures Again(sys.c, Run(dec, sys, evs).value.c, Frames(evs), id)
    decreases |evs|
  {
    if evs == [] {
      assert sys.c.called[|sys.c.called|..] == [];
    } else {
      var (front, ev) := (evs[..|evs| - 1], evs[|evs| - 1]);
      assert front + [ev] == evs;
      OneMoreEvent(dec, sys, front, ev);
      hide SysInv, Again, FrameOk, Frames, ProcessFrame;
      QueuedAgainIff(dec, sys, front, id);
      RunKeepsSys(dec, sys, front);
      var sys1 := Run(dec, sys, front).value;
      if ev.Accept? {
        assert TableInv(sys1.c) by { SysTable(sys1); }
        FrameKeepsTable(dec, sys1.c, ev.f);
        AgainStep(sys.c, sys1.c, Frames(front), ev.f, Run(dec, sys, evs).value.c, id);
      } else {
        QuietAgain(dec, sys.c, sys1, Frames(front), ev, id);
      }
    }
  }

  lemma SysTable(sys: Sys)
    requires SysInv(sys)
    ensures TableInv(sys.c)
  {
  }
}
