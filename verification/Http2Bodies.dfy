/** What an action gets of its request body, in every interleaving with the frames. */
module Http2Bodies {
  import opened Basics
  import opened Http2Frame
  import opened Http2Proto
  import opened Http2Table
  import opened Http2Runs
  import opened Http2Faults
  import opened Http2Bits
  import opened Http2Actions
  import opened Http2Requests

  /** No other action of the same stream has been started. */
  ghost predicate Only(sys: Sys, i: nat) {
    Runs(sys, i) && forall j :: Runs(sys, j) && StreamOf(sys, j) == StreamOf(sys, i) ==> j == i
  }

  predicate Empties(s: Stream) { s.reset && !s.headerReceived }

  /** The only reader of a stream: what it has passed on and what it holds are what was taken.  It has heard
      of a reset only if there was one, and front() is safe unless a reset has emptied the queue. */
  predicate Reader(a: Action, s: Stream) {
    && a.passed + Held(a.pc) == s.taken
    && (forall x :: x in a.passed ==> x.Block?)
    && match a.pc
       case Waiting(seen) => seen ==> s.reset
       case Checking => s.queue != [] || s.reset
       case Taking => s.queue == [] <==> Empties(s)
       case Holding(_, again) => again ==> s.reset
       case Refilling(x, seen) => x.Block? && (seen ==> s.reset)
       case Asking(x) => x.Block?
       case Crashed => Empties(s)
       case _ => true
  }

  ghost predicate ReaderInv(sys: Sys, i: nat) {
    Only(sys, i) ==> Reader(sys.actions[i], sys.c.streams[StreamOf(sys, i)])
  }

  lemma ReaderSteps(a: Action, s: Stream)
    requires Reader(a, s) && Reading(a.pc)
    ensures Reader(BodyStep(a, s).0, BodyStep(a, s).1)
  {
    var (a', s') := BodyStep(a, s);
    if s.queue != [] { assert a.passed + [] == a.passed; }
    assert forall x: Item :: (a.passed + [x]) + [] == a.passed + [x];
  }

  lemma ReaderOnFrame(a: Action, c: Conn, f: Frame, c': Conn, t: nat)
    requires t in c.streams && t in c'.streams && BitStep(c, f, c', t) && Reader(a, c.streams[t])
    ensures Reader(a, c'.streams[t])
  {
    hide DataItems, EndItems, IsRstStream, MarksEnd, IsHeaders, EndOfHeader, Held;
  }

  lemma AcceptKeepsReader(dec: Decoder, sys: Sys, f: Frame, i: nat)
    requires SysInv(sys) && Runs(sys, i) && ReaderInv(sys, i) && Step(dec, sys, Accept(f)).Some?
    ensures Runs(Step(dec, sys, Accept(f)).value, i) && ReaderInv(Step(dec, sys, Accept(f)).value, i)
  {
    var (c, sys') := (sys.c, Step(dec, sys, Accept(f)).value);
    var t := StreamOf(sys, i);
    assert sys' == sys.(c := ProcessFrame(dec, c, f).c) && TableInv(c) && t != 0;
    FrameMovesOn(dec, c, f);
    FrameBits(dec, c, f, t);
    hide ProcessFrame, TableInv, Reader, Step, HasAction, BitStep;
    SameActions(sys, sys', i);
    ReaderOnFrame2(sys, f, sys', i);
  }

  lemma ReaderOnFrame2(sys: Sys, f: Frame, sys': Sys, i: nat)
    requires Runs(sys, i) && Runs(sys', i) && ReaderInv(sys, i) && sys'.actions == sys.actions
    requires StreamOf(sys', i) == StreamOf(sys, i) && BitStep(sys.c, f, sys'.c, StreamOf(sys, i))
    requires Only(sys', i) ==> Only(sys, i)
    ensures ReaderInv(sys', i)
  {
    hide Reader, BitStep, Only;
    if Only(sys', i) { ReaderOnFrame(sys.actions[i], sys.c, f, sys'.c, StreamOf(sys, i)); }
  }

  lemma SameActions(sys: Sys, sys': Sys, i: nat)
    requires SysInv(sys) && Runs(sys, i) && MovedOn(sys.c, sys'.c) && sys'.actions == sys.actions
    ensures Runs(sys', i) && StreamOf(sys', i) == StreamOf(sys, i) && (Only(sys', i) ==> Only(sys, i))
  {
    forall j | Runs(sys, j) ensures Runs(sys', j) && StreamOf(sys', j) == StreamOf(sys, j) { }
  }

  lemma FailKeepsReader(dec: Decoder, sys: Sys, f: Frame, i: nat)
    requires SysInv(sys) && Runs(sys, i) && ReaderInv(sys, i) && Step(dec, sys, Fail(f)).Some?
    ensures Runs(Step(dec, sys, Fail(f)).value, i) && ReaderInv(Step(dec, sys, Fail(f)).value, i)
  {
    hide ProcessFrame, TableInv, KeepsConnection, HasAction, Only;
    var (c, sys') := (sys.c, Step(dec, sys, Fail(f)).value);
    var t := StreamOf(sys, i);
    assert TableInv(c) && t in c.streams;
    ErrorKeepsTable(dec, c, f);
    FaultMovesOn(dec, c, f);
    assert SameHistory(Before(c, t), Before(sys'.c, t));
    SameActions(sys, sys', i);
  }

  lemma StartKeepsReader(sys: Sys, i: nat)
    requires SysInv(sys) && StartNext(sys).Some? && Runs(StartNext(sys).value, i)
    requires Runs(sys, i) ==> ReaderInv(sys, i)
    ensures ReaderInv(StartNext(sys).value, i)
  {
    var sys' := StartNext(sys).value;
    var t := StreamOf(sys, i);
    hide TableInv, Find, Marked, Reader;
    if Only(sys', i) {
      if Runs(sys, i) {
        forall j | Runs(sys, j) ensures Runs(sys', j) { }
        assert Only(sys, i);
      } else {
        assert sys'.actions[i] == Action(Waiting(false), []);
        forall j | Runs(sys, j) ensures StreamOf(sys, j) != t { assert Runs(sys', j); }
        assert sys.c.streams[t].taken == [];
        NewReader(sys.c.streams[t]);
      }
    }
  }

  lemma NewReader(s: Stream)
    requires s.taken == []
    ensures Reader(Action(Waiting(false), []), s)
  {
    assert [] + [] == s.taken;
  }

  lemma ActionKeepsReader(sys: Sys, ev: Event, i: nat)
    requires ev.Act? || ev.Quit? || ev.Finish? || ev.Spend?
    requires SysInv(sys) && Runs(sys, i) && ReaderInv(sys, i) && ActionStep(sys, ev).Some?
    ensures Runs(ActionStep(sys, ev).value, i) && ReaderInv(ActionStep(sys, ev).value, i)
  {
    var sys' := ActionStep(sys, ev).value;
    var (t, u) := (StreamOf(sys, i), StreamOf(sys, ev.i));
    assert Marked(sys.c) && t != 0 && u != 0;
    hide TableInv, BodyStep, Reader, HasAction, Marked;
    assert forall j :: Runs(sys, j) <==> Runs(sys', j);
    if Only(sys', i) {
      assert Only(sys, i);
      if ev.i == i {
        OwnStep(sys.actions[i], sys.c.streams[t], ev, sys'.actions[i], sys'.c.streams[t]);
      } else {
        assert t != u;
        OtherWindow(sys.actions[i], sys.c.streams[t], sys'.c.streams[t]);
      }
    }
  }

  lemma OtherWindow(a: Action, s: Stream, s': Stream)
    requires Reader(a, s) && s' == s.(window := s'.window)
    ensures Reader(a, s')
  {
    hide Held;
  }

  lemma OwnStep(a: Action, s: Stream, ev: Event, a': Action, s': Stream)
    requires Reader(a, s)
    requires match ev
             case Act(_) => Reading(a.pc) && (a', s') == BodyStep(a, s)
             case Quit(_) => Reading(a.pc) && a' == a.(pc := Closed(Held(a.pc))) && s' == s
             case Finish(_) => a.pc.Closed? && a' == a.(pc := Gone(a.pc.held)) && s' == s.(reset := true)
             case Spend(_, _) => a' == a && s' == s.(window := s'.window)
             case _ => false
    ensures Reader(a', s')
  {
    if ev.Act? {
      hide Reader, BodyStep;
      ReaderSteps(a, s);
    }
  }

  lemma StepKeepsReader(dec: Decoder, sys: Sys, ev: Event, i: nat)
    requires SysInv(sys) && Step(dec, sys, ev).Some? && Runs(Step(dec, sys, ev).value, i)
    requires Runs(sys, i) ==> ReaderInv(sys, i)
    ensures ReaderInv(Step(dec, sys, ev).value, i)
  {
    if !ev.Start? { StayRuns(dec, sys, ev, i); }
    hide SysInv, ReaderInv, StartNext, ActionStep, ProcessFrame, KeepsConnection;
    match ev
    case Accept(f) => AcceptKeepsReader(dec, sys, f, i);
    case Fail(f) => FailKeepsReader(dec, sys, f, i);
    case Start => StartKeepsReader(sys, i);
    case _ => ActionKeepsReader(sys, ev, i);
  }

  /** Only a dispatch starts an action. */
  lemma StayRuns(dec: Decoder, sys: Sys, ev: Event, i: nat)
    requires SysInv(sys) && Step(dec, sys, ev).Some? && !ev.Start? && Runs(Step(dec, sys, ev).value, i)
    ensures Runs(sys, i)
  {
    hide ProcessFrame, KeepsConnection, TableInv, BodyStep, HasAction;
    var sys' := Step(dec, sys, ev).value;
    assert sys'.actions.Keys == sys.actions.Keys;
    assert i < sys.begun;
  }

  lemma {:induction false} ReaderInRun(dec: Decoder, evs: seq<Event>, i: nat)
    requires Run(dec, START, evs).Some? && Runs(Run(dec, START, evs).value, i)
    ensures ReaderInv(Run(dec, START, evs).value, i)
    decreases |evs|
  {
    if evs != [] {
      var (front, ev) := (evs[..|evs| - 1], evs[|evs| - 1]);
      hide SysInv, ReaderInv, Step;
      StartIsSys();
      RunKeepsSys(dec, START, front);
      var sys := Run(dec, START, front).value;
      if Runs(sys, i) { ReaderInRun(dec, front, i); }
      StepKeepsReader(dec, sys, ev, i);
    }
  }

  // ----- main results, over every run -----

  lemma CountedTwice(ids: seq<nat>, i: nat, j: nat)
    requires i < j < |ids| && ids[i] == ids[j]
    ensures multiset(ids)[ids[i]] >= 2
  {
    var (a, b) := (ids[..j], ids[j..]);
    assert ids == a + b && a[i] == ids[i] && b[0] == ids[i];
    assert multiset(ids) == multiset(a) + multiset(b);
    assert ids[i] in multiset(a) && ids[i] in multiset(b);
  }

  /** Without a trailer behind a DATA frame a stream has one action. */
  lemma OnlyWithoutTrailer(dec: Decoder, evs: seq<Event>, i: nat)
    requires Run(dec, START, evs).Some? && Runs(Run(dec, START, evs).value, i)
    requires !HasTrailer(Frames(evs), StreamOf(Run(dec, START, evs).value, i))
    ensures Only(Run(dec, START, evs).value, i)
  {
    var sys := Run(dec, START, evs).value;
    DispatchCount(dec, evs, StreamOf(sys, i));
    hide Run, Frames, HasTrailer;
    forall j: nat | Runs(sys, j) && StreamOf(sys, j) == StreamOf(sys, i) ensures j == i {
      if j < i { CountedTwice(sys.c.called, j, i); }
      if i < j { CountedTwice(sys.c.called, i, j); }
    }
  }

  lemma FrontOfBody(passed: seq<Item>, held: seq<Item>, body: seq<Item>)
    requires passed + held <= body || passed + held == body + [EndMark]
    requires EndMark !in body && EndMark !in passed
    ensures passed <= body && (held == [EndMark] ==> passed == body)
  {
    var taken := passed + held;
    assert forall k :: 0 <= k < |passed| ==> passed[k] == taken[k] && taken[k] in passed;
    assert forall k :: 0 <= k < |body| && k < |taken| ==> taken[k] == body[k] && taken[k] in body;
    assert |taken| > |body| ==> taken[|body|] == EndMark;
    assert held == [EndMark] ==> taken[|passed|] == EndMark;
  }

  /** The only action of a stream gives its program DATA payloads in order, none twice and none left out;
      what it has taken and not passed on it holds.  Once it holds the end marker, the program was given
      the whole body of a request that has ended. */
  lemma BodyReader(dec: Decoder, evs: seq<Event>, i: nat)
    requires Run(dec, START, evs).Some? && Only(Run(dec, START, evs).value, i)
    ensures var (sys, fs) := (Run(dec, START, evs).value, Frames(evs));
            var (a, t) := (sys.actions[i], StreamOf(sys, i));
            && a.passed + Held(a.pc) == sys.c.streams[t].taken
            && a.passed <= BodyOf(fs, t)
            && (Held(a.pc) == [EndMark] ==> a.passed == BodyOf(fs, t) && Ended(fs, t))
  {
    var (sys, fs) := (Run(dec, START, evs).value, Frames(evs));
    var (a, t) := (sys.actions[i], StreamOf(sys, i));
    StartIsSys();
    RunKeepsSys(dec, START, evs);
    assert t != 0 && Reader(a, sys.c.streams[t]) by {
      ReaderInRun(dec, evs, i);
      hide Run;
    }
    RequestBody(dec, evs, t);
    RunDetermines(dec, evs, t);
    hide Run, Frames, BodyOf, Bytes, SysInv, Opened, OpenedSplit, PushedBy, Dropped, HasReset, Ended;
    FrontOfBody(a.passed, Held(a.pc), BodyOf(fs, t));
    if Held(a.pc) == [EndMark] {
      var s := sys.c.streams[t];
      assert s.taken[|a.passed|] == EndMark && s.taken <= s.pushed;
      assert EndMark in s.pushed;
    }
  }

  lemma EmptiesIff(dec: Decoder, evs: seq<Event>, i: nat)
    requires Run(dec, START, evs).Some? && Only(Run(dec, START, evs).value, i)
    requires !Run(dec, START, evs).value.actions[i].pc.Gone?
    ensures var sys := Run(dec, START, evs).value;
            var (t, s) := (StreamOf(sys, i), sys.c.streams[StreamOf(sys, i)]);
            t != 0 && Reader(sys.actions[i], s) && (Empties(s) <==> Dropped(Frames(evs), t))
  {
    var sys := Run(dec, START, evs).value;
    var t := StreamOf(sys, i);
    StartIsSys();
    RunKeepsSys(dec, START, evs);
    ReaderInRun(dec, evs, i);
    assert t != 0 && !Finished(sys, t) by { hide Run, Reader, Frames; }
    RunDetermines(dec, evs, t);
    ResetIff(dec, evs, t);
    hide Run, Frames, SysInv, Opened, OpenedSplit, PushedBy, HasReset, Ended, Reader, Finished;
  }

  /** The test for a reset, with the only action of the stream at it. */
  lemma TestPassesIff(dec: Decoder, evs: seq<Event>, i: nat)
    requires Run(dec, START, evs).Some? && Only(Run(dec, START, evs).value, i)
    requires Run(dec, START, evs).value.actions[i].pc.Checking?
    ensures var (r, t) := (Run(dec, START, evs + [Act(i)]), StreamOf(Run(dec, START, evs).value, i));
            && r.Some? && i in r.value.actions
            && (r.value.actions[i].pc.Taking? <==> !HasReset(Frames(evs), t))
  {
    hide ProcessFrame, SysInv;
    var sys := Run(dec, START, evs).value;
    var t := StreamOf(sys, i);
    EmptiesIff(dec, evs, i);
    ResetIff(dec, evs, t);
    OneMoreEvent(dec, START, evs, Act(i));
    hide Run, Frames, Dropped, HasReset, Reader;
    assert !Finished(sys, t);
  }

  /** The action has seen that its stream is not reset, and takes the first item without testing for one.
      The queue is empty exactly when an RST_STREAM has come since, on a stream not opened over
      CONTINUATION. */
  lemma FrontIsEmptyIff(dec: Decoder, evs: seq<Event>, i: nat)
    requires Run(dec, START, evs).Some? && Only(Run(dec, START, evs).value, i)
    requires Run(dec, START, evs).value.actions[i].pc.Taking?
    ensures var (r, t) := (Run(dec, START, evs + [Act(i)]), StreamOf(Run(dec, START, evs).value, i));
            && r.Some? && i in r.value.actions
            && (r.value.actions[i].pc.Crashed? <==> Dropped(Frames(evs), t))
  {
    EmptiesIff(dec, evs, i);
    OneMoreEvent(dec, START, evs, Act(i));
    hide Run, Frames, Dropped, Only;
  }

  /** With any number of actions on the stream: the queue is empty exactly when a reset has dropped it or
      all that was put in it has been taken. */
  lemma FrontIsEmptyAnyIff(dec: Decoder, evs: seq<Event>, i: nat)
    requires Run(dec, START, evs).Some? && Runs(Run(dec, START, evs).value, i)
    requires Run(dec, START, evs).value.actions[i].pc.Taking?
    ensures var (sys, r) := (Run(dec, START, evs).value, Run(dec, START, evs + [Act(i)]));
            var t := StreamOf(sys, i);
            && r.Some? && i in r.value.actions
            && (r.value.actions[i].pc.Crashed? <==>
                Dropped(Frames(evs), t) || sys.c.streams[t].taken == PushedBy(Frames(evs), t))
  {
    hide ProcessFrame, SysInv;
    StartIsSys();
    RunKeepsSys(dec, START, evs);
    var sys := Run(dec, START, evs).value;
    var t := StreamOf(sys, i);
    StreamIsNumbered(sys, i);
    RunDetermines(dec, evs, t);
    OneMoreEvent(dec, START, evs, Act(i));
    hide Run, Frames, Dropped, PushedBy, Opened, OpenedSplit, Ended, HasReset;
    var s := sys.c.streams[t];
    assert |s.taken| == |s.pushed| ==> s.taken == s.pushed;
  }

  lemma StreamIsNumbered(sys: Sys, i: nat)
    requires SysInv(sys) && Runs(sys, i)
    ensures StreamOf(sys, i) != 0
  {
  }

  /** An action never meets an empty queue unless its stream was reset before or has got a trailer. */
  lemma CrashNeeds(dec: Decoder, evs: seq<Event>, i: nat)
    requires Run(dec, START, evs).Some? && Runs(Run(dec, START, evs).value, i)
    requires Run(dec, START, evs).value.actions[i].pc.Crashed?
    ensures var t := StreamOf(Run(dec, START, evs).value, i);
            HasTrailer(Frames(evs), t) || Dropped(Frames(evs), t)
  {
    hide Run, Frames, HasTrailer, Dropped, Only;
    if !HasTrailer(Frames(evs), StreamOf(Run(dec, START, evs).value, i)) {
      OnlyWithoutTrailer(dec, evs, i);
      EmptiesIff(dec, evs, i);
    }
  }

  // ----- the body is read to its end -----

  function Acts(i: nat, n: nat): seq<Event> { seq(n, _ => Act(i)) }

  /** Steps the action still needs, at most. */
  function Work(pc: Pc, queue: nat): nat {
    3 * queue + match pc
                case Polling => 4
                case Waiting(_) => 3
                case Checking => 2
                case Taking => 1
                case Holding(_, _) => 2
                case Asking(_) => 2
                case Refilling(_, _) => 1
                case _ => 0
  }

  /** A stream not reset whose end marker is queued or held by its action. */
  predicate Draining(a: Action, s: Stream) {
    && Reader(a, s) && Reading(a.pc) && !s.reset && HasEnd(s.taken + s.queue) && EndsOnce(s.taken + s.queue)
  }

  lemma NotDry(a: Action, s: Stream)
    requires Draining(a, s)
    ensures s.queue == [] ==> Held(a.pc) != [] && Held(a.pc)[|Held(a.pc)| - 1].EndMark?
  {
    var all := s.taken + s.queue;
    assert s.queue == [] ==> all == a.passed + Held(a.pc);
    assert forall k :: 0 <= k < |a.passed| ==> a.passed[k].Block? by {
      assert forall k :: 0 <= k < |a.passed| ==> a.passed[k] in a.passed;
    }
    assert a.passed + [] == a.passed;
  }

  lemma DrainStep(a: Action, s: Stream)
    requires Draining(a, s)
    ensures var (a', s') := BodyStep(a, s);
            && s' == s.(queue := s'.queue, taken := s'.taken) && s'.taken + s'.queue == s.taken + s.queue
            && (a'.pc.Closed? ==> a'.pc.held == [EndMark])
            && (!a'.pc.Closed? ==> Draining(a', s') && Work(a'.pc, |s'.queue|) < Work(a.pc, |s.queue|))
  {
    NotDry(a, s);
    ReaderSteps(a, s);
    BodyStepActs(1, a, s);
    hide Reader, HasEnd, EndsOnce;
    if a.pc.Holding? { ReadAgain(a, s); }
  }

  lemma ReadAgain(a: Action, s: Stream)
    requires Reader(a, s) && a.pc.Holding?
    ensures a.pc.again ==> s.reset
  {
  }

  lemma ActGoesOn(dec: Decoder, evs: seq<Event>, i: nat, n: nat)
    ensures evs + Acts(i, n + 1) == (evs + [Act(i)]) + Acts(i, n)
  {
  }

  /** A request that is complete and not reset is read to its end by its only action, whatever that is doing
      with the body: without further frames the action passes on all the rest and stops. */
  lemma {:induction false} ReaderFinishes(dec: Decoder, evs: seq<Event>, i: nat) returns (n: nat)
    requires Run(dec, START, evs).Some? && Only(Run(dec, START, evs).value, i)
    requires var sys := Run(dec, START, evs).value;
             && Reading(sys.actions[i].pc) && !StreamReset(sys.c, StreamOf(sys, i))
             && EndMark in sys.c.streams[StreamOf(sys, i)].pushed
    ensures var r := Run(dec, START, evs + Acts(i, n));
            && r.Some? && i in r.value.actions && i < |r.value.c.called|
            && StreamOf(r.value, i) == StreamOf(Run(dec, START, evs).value, i)
            && r.value.actions[i].pc == Closed([EndMark])
            && r.value.actions[i].passed == BodyOf(Frames(evs), StreamOf(r.value, i))
    decreases var sys := Run(dec, START, evs).value;
              Work(sys.actions[i].pc, |sys.c.streams[StreamOf(sys, i)].queue|)
  {
    var sys := Run(dec, START, evs).value;
    var (t, evs1) := (StreamOf(sys, i), evs + [Act(i)]);
    OneActReads(dec, evs, i);
    var sys1 := Run(dec, START, evs1).value;
    if sys1.actions[i].pc.Closed? {
      n := 1;
      assert evs + Acts(i, 1) == evs1;
      BodyReader(dec, evs1, i);
    } else {
      var m := ReaderFinishes(dec, evs1, i);
      n := m + 1;
      ActGoesOn(dec, evs, i, m);
    }
  }

  lemma OneActReads(dec: Decoder, evs: seq<Event>, i: nat)
    requires Run(dec, START, evs).Some? && Only(Run(dec, START, evs).value, i)
    requires var sys := Run(dec, START, evs).value;
             && Reading(sys.actions[i].pc) && !StreamReset(sys.c, StreamOf(sys, i))
             && EndMark in sys.c.streams[StreamOf(sys, i)].pushed
    ensures var (sys, r) := (Run(dec, START, evs).value, Run(dec, START, evs + [Act(i)]));
            && r.Some? && Only(r.value, i) && StreamOf(r.value, i) == StreamOf(sys, i)
            && Frames(evs + [Act(i)]) == Frames(evs)
            && var (t, a') := (StreamOf(sys, i), r.value.actions[i]);
               && !StreamReset(r.value.c, t) && EndMark in r.value.c.streams[t].pushed
               && (a'.pc.Closed? ==> a'.pc.held == [EndMark])
               && (!a'.pc.Closed? ==>
                     && Reading(a'.pc)
                     && Work(a'.pc, |r.value.c.streams[t].queue|) < Work(sys.actions[i].pc, |sys.c.streams[t].queue|))
  {
    var sys := Run(dec, START, evs).value;
    var (t, s, a) := (StreamOf(sys, i), sys.c.streams[StreamOf(sys, i)], sys.actions[i]);
    OneMoreEvent(dec, START, evs, Act(i));
    EmptiesIff(dec, evs, i);
    DrainingNow(dec, evs, i);
    hide Run, Frames, Dropped, Reader;
    DrainStep(a, s);
    var sys1 := Run(dec, START, evs + [Act(i)]).value;
    hide BodyStep, Work, Draining;
    forall j | Runs(sys1, j) ensures Runs(sys, j) && StreamOf(sys1, j) == StreamOf(sys, j) { }
  }

  lemma DrainingNow(dec: Decoder, evs: seq<Event>, i: nat)
    requires Run(dec, START, evs).Some? && Only(Run(dec, START, evs).value, i)
    requires var sys := Run(dec, START, evs).value;
             && Reading(sys.actions[i].pc) && !StreamReset(sys.c, StreamOf(sys, i))
             && EndMark in sys.c.streams[StreamOf(sys, i)].pushed
    ensures var sys := Run(dec, START, evs).value; Draining(sys.actions[i], sys.c.streams[StreamOf(sys, i)])
  {
    var sys := Run(dec, START, evs).value;
    var s := sys.c.streams[StreamOf(sys, i)];
    EmptiesIff(dec, evs, i);
    StartIsSys();
    RunKeepsSys(dec, START, evs);
    assert QueueInv(s);
    hide Run, Frames, Dropped, Reader, Only;
    assert s.taken + s.queue == s.pushed;
  }
}
