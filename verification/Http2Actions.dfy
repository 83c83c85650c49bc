/** The two writers of the stream table: frames as they are received, and the action threads that take the
request bodies, spend the windows and mark their streams reset when they are done.

Every event is one locked section.  A call of the receive loop is the frames it accepts, possibly one that
raises a stream error, and the dispatch of the actions they queued; action threads run in between. */
module Http2Actions {
  import opened Basics
  import opened Http2Frame
  import opened Http2Proto
  import opened Http2Table
  import opened Http2Runs
  import opened Http2Faults
  import opened Http2Bits

  // ----- the state -----

  /** Where an action stands with the body: `seen` is what it last heard of a reset. */
  datatype Pc =
    | Waiting(seen: bool)                 // for the first item
    | Polling
    | Checking                            // for a reset, without the queue's lock
    | Taking                              // front() comes next
    | Holding(item: Item, again: bool)    // an item just taken, or the last one again
    | Refilling(last: Item, seen: bool)   // waits for the next one
    | Asking(last: Item)
    | Closed(held: seq<Item>)             // no more of the body
    | Crashed                             // front() of an empty queue
    | Gone(held: seq<Item>)

  /** `passed` is what the program was given. */
  datatype Action = Action(pc: Pc, passed: seq<Item>)

  /** Action i is the i-th that was queued.  Those from `begun` on have been queued in the current call;
      `dispatching` says that its frames are done. */
  datatype Sys = Sys(c: Conn, begun: nat, dispatching: bool, actions: map<nat, Action>)

  datatype Event =
    | Accept(f: Frame)
    | Fail(f: Frame)           // a stream error: the call ends, nothing is dispatched
    | Start                    // dispatch of the next queued action
    | Act(i: nat)              // the next step of action i on the body
    | Quit(i: nat)             // it never wanted the body, cannot pass it on, or the connection stops
    | Finish(i: nat)           // fuExitDoAction
    | Spend(i: nat, n: nat)    // fnUpdateStreamParam

  const START: Sys := Sys(INIT, 0, false, map[])

  // ----- the steps -----

  /** The items an action has taken and not passed on. */
  function Held(pc: Pc): seq<Item> {
    match pc
    case Holding(x, again) => if again then [] else [x]
    case Closed(held) => held
    case Gone(held) => held
    case _ => []
  }

  function Popped(s: Stream): Stream
    requires s.queue != []
  {
    s.(queue := s.queue[1..], taken := s.taken + [s.queue[0]])
  }

  /** One step of the loop that passes the body on. */
  function BodyStep(a: Action, s: Stream): (Action, Stream) {
    match a.pc
    case Waiting(seen) => (a.(pc := if s.queue == [] && !seen then Polling else Checking), s)
    case Polling => (a.(pc := Waiting(s.reset)), s)
    case Checking => (a.(pc := if s.reset then Closed([]) else Taking), s)
    case Taking => if s.queue == [] then (a.(pc := Crashed), s) else (a.(pc := Holding(s.queue[0], false)), Popped(s))
    case Holding(x, _) =>
      if x.EndMark? || s.reset then (a.(pc := Closed(Held(a.pc))), s)
      else (Action(Refilling(x, false), a.passed + [x]), s)
    case Refilling(x, seen) =>
      if s.queue != [] then (a.(pc := Holding(s.queue[0], false)), Popped(s))
      else (a.(pc := if seen then Holding(x, true) else Asking(x)), s)
    case Asking(x) => (a.(pc := Refilling(x, s.reset)), s)
    case _ => (a, s)
  }

  predicate Reading(pc: Pc) { !pc.Closed? && !pc.Crashed? && !pc.Gone? }

  predicate HasStatus(c: Conn, t: nat) { t in c.streams && Find(c.streams[t].fields, ":status") != [] }

  predicate Runs(sys: Sys, i: nat) { i in sys.actions && i < |sys.c.called| && sys.c.called[i] in sys.c.streams }

  function StreamOf(sys: Sys, i: nat): nat
    requires i < |sys.c.called|
  {
    sys.c.called[i]
  }

  /** EndOfStreamAction for the next queued action, unless its stream has been reset.  A field `:status`
      raises an exception that closes the connection. */
  function StartNext(sys: Sys): Option<Sys> {
    if sys.begun >= |sys.c.called| then None
    else
      var (i, t) := (sys.begun, sys.c.called[sys.begun]);
      var next := sys.(begun := i + 1, dispatching := i + 1 < |sys.c.called|);
      if StreamReset(sys.c, t) then Some(next)
      else if HasStatus(sys.c, t) then None
      else Some(next.(actions := sys.actions[i := Action(Waiting(false), [])]))
  }

  function Spent(c: Conn, t: nat, n: nat): Conn {
    c.(streams := map j | j in c.streams ::
         if j == t || j == 0 then c.streams[j].(window := c.streams[j].window - n) else c.streams[j])
  }

  /** What an action does; None if it is not its turn. */
  function ActionStep(sys: Sys, ev: Event): Option<Sys>
    requires ev.Act? || ev.Quit? || ev.Finish? || ev.Spend?
  {
    var i := ev.i;
    if !Runs(sys, i) then None
    else
      var (t, a) := (StreamOf(sys, i), sys.actions[i]);
      match ev
      case Act(_) =>
        if !Reading(a.pc) then None
        else
          var (a', s') := BodyStep(a, sys.c.streams[t]);
          Some(sys.(c := Put(sys.c, t, s'), actions := sys.actions[i := a']))
      case Quit(_) =>
        if !Reading(a.pc) || a.pc.Taking? then None
        else Some(sys.(actions := sys.actions[i := a.(pc := Closed(Held(a.pc)))]))
      case Finish(_) =>
        if !a.pc.Closed? then None
        else Some(sys.(c := Put(sys.c, t, sys.c.streams[t].(reset := true)),
                       actions := sys.actions[i := a.(pc := Gone(a.pc.held))]))
      case Spend(_, n) => if a.pc.Crashed? || a.pc.Gone? then None else Some(sys.(c := Spent(sys.c, t, n)))
  }

  function Step(dec: Decoder, sys: Sys, ev: Event): Option<Sys> {
    match ev
    case Accept(f) =>
      var o := ProcessFrame(dec, sys.c, f);
      if !sys.dispatching && o.Go? then Some(sys.(c := o.c)) else None
    case Fail(f) =>
      var o := ProcessFrame(dec, sys.c, f);
      if !sys.dispatching && o.Thrown? && KeepsConnection(o.fault) then Some(sys.(c := o.c, begun := |o.c.called|))
      else None
    case Start => StartNext(sys)
    case _ => ActionStep(sys, ev)
  }

  /** The state after a run of events; None if they are not a run, or the connection has closed. */
  function Run(dec: Decoder, sys: Sys, evs: seq<Event>): Option<Sys>
    decreases |evs|
  {
    if evs == [] then Some(sys)
    else
      var r := Run(dec, sys, evs[..|evs| - 1]);
      if r.Some? then Step(dec, r.value, evs[|evs| - 1]) else None
  }

  /** The frames accepted. */
  function Frames(evs: seq<Event>): seq<Frame>
    decreases |evs|
  {
    if evs == [] then []
    else
      var (front, ev) := (Frames(evs[..|evs| - 1]), evs[|evs| - 1]);
      if ev.Accept? then front + [ev.f] else front
  }

  lemma OneMoreEvent(dec: Decoder, sys: Sys, evs: seq<Event>, ev: Event)
    ensures Run(dec, sys, evs + [ev]) == var r := Run(dec, sys, evs); if r.Some? then Step(dec, r.value, ev) else None
    ensures Frames(evs + [ev]) == if ev.Accept? then Frames(evs) + [ev.f] else Frames(evs)
  {
    assert (evs + [ev])[..|evs|] == evs;
  }

  // ----- what actions do to the table -----

  predicate ActedStream(t: nat, s: Stream, s': Stream) {
    && s' == s.(window := s'.window, reset := s'.reset, queue := s'.queue, taken := s'.taken)
    && s'.window <= s.window && (s.reset ==> s'.reset) && (s'.reset && !s.reset ==> s.actionCalled)
    && s.taken <= s'.taken && s'.taken + s'.queue == s.taken + s.queue
    && (t == 0 ==> s' == s.(window := s'.window))
  }

  /** Windows only shrink, streams are only reset once their action was called, and what leaves a queue
      has been taken from its front. */
  ghost predicate Acted(c: Conn, c': Conn) {
    && c' == c.(streams := c'.streams) && c'.streams.Keys == c.streams.Keys
    && forall t :: t in c.streams ==> ActedStream(t, c.streams[t], c'.streams[t])
  }

  lemma ActedTransitive(c1: Conn, c2: Conn, c3: Conn)
    requires Acted(c1, c2) && Acted(c2, c3)
    ensures Acted(c1, c3)
  {
    forall t | t in c1.streams ensures ActedStream(t, c1.streams[t], c3.streams[t]) {
      assert ActedStream(t, c1.streams[t], c2.streams[t]) && ActedStream(t, c2.streams[t], c3.streams[t]);
    }
  }

  lemma BodyStepActs(t: nat, a: Action, s: Stream)
    requires t != 0
    ensures ActedStream(t, s, BodyStep(a, s).1)
  {
    assert BodyStep(a, s).1 == s || (s.queue != [] && BodyStep(a, s).1 == Popped(s));
    hide BodyStep;
    if s.queue != [] { PopActs(t, s); }
  }

  lemma PopActs(t: nat, s: Stream)
    requires t != 0 && s.queue != []
    ensures ActedStream(t, s, Popped(s))
  {
    assert [s.queue[0]] + s.queue[1..] == s.queue;
    Associate(s.taken, [s.queue[0]], s.queue[1..]);
  }

  lemma PutActs(c: Conn, t: nat, s': Stream)
    requires t in c.streams && ActedStream(t, c.streams[t], s')
    ensures Acted(c, Put(c, t, s'))
  {
  }

  lemma ActionActs(sys: Sys, ev: Event)
    requires ev.Act? || ev.Quit? || ev.Finish? || ev.Spend?
    requires ActionStep(sys, ev).Some? && StreamOf(sys, ev.i) != 0 && sys.c.streams[StreamOf(sys, ev.i)].actionCalled
    ensures Acted(sys.c, ActionStep(sys, ev).value.c)
  {
    hide BodyStep;
    var (t, a) := (StreamOf(sys, ev.i), sys.actions[ev.i]);
    match ev {
      case Act(_) =>
        BodyStepActs(t, a, sys.c.streams[t]);
        PutActs(sys.c, t, BodyStep(a, sys.c.streams[t]).1);
      case Finish(_) => PutActs(sys.c, t, sys.c.streams[t].(reset := true));
      case _ =>
    }
  }

  // ----- the invariant -----

  ghost predicate Marked(c: Conn) {
    forall i :: 0 <= i < |c.called| ==>
      c.called[i] != 0 && c.called[i] in c.streams && c.streams[c.called[i]].actionCalled
  }

  ghost predicate HasAction(sys: Sys, t: nat) { exists i :: Runs(sys, i) && StreamOf(sys, i) == t }

  /** The table invariant holds between any two events.  Every queued action has its stream marked, has
      been dispatched only once its call ended, and nothing is taken from a body without one. */
  ghost predicate SysInv(sys: Sys) {
    && TableInv(sys.c) && Marked(sys.c)
    && sys.begun <= |sys.c.called| && (sys.dispatching ==> sys.begun < |sys.c.called|)
    && (forall i :: i in sys.actions ==> i < sys.begun)
    && (forall t :: t in sys.c.streams && sys.c.streams[t].taken != [] ==> HasAction(sys, t))
  }

  lemma ActedKeepsTable(c: Conn, c': Conn)
    requires TableInv(c) && Acted(c, c')
    ensures TableInv(c')
  {
    forall t | t in c.streams && t != 0 ensures QueueInv(c'.streams[t]) {
      assert ActedStream(t, c.streams[t], c'.streams[t]);
      ActedKeepsQueue(t, c.streams[t], c'.streams[t]);
    }
    assert c.streams == map[] ==> c'.streams == map[];
    hide QueueInv, ActedStream;
    if 0 in c.streams { assert ActedStream(0, c.streams[0], c'.streams[0]); EntryStays(c.streams[0], c'.streams[0]); }
    if HeaderOpen(c') {
      var t :| t in c.streams && t != 0 && BlockIsOpen(c.streams[t]);
      assert ActedStream(t, c.streams[t], c'.streams[t]);
      BlockStays(t, c.streams[t], c'.streams[t]);
    }
  }

  lemma EntryStays(s: Stream, s': Stream)
    requires ActedStream(0, s, s')
    ensures s' == s.(window := s'.window)
  {
  }

  lemma BlockStays(t: nat, s: Stream, s': Stream)
    requires ActedStream(t, s, s')
    ensures BlockIsOpen(s') == BlockIsOpen(s)
  {
  }

  lemma ActedKeepsQueue(t: nat, s: Stream, s': Stream)
    requires QueueInv(s) && ActedStream(t, s, s')
    ensures QueueInv(s')
  {
    hide Bytes;
    if s.queue == s.pushed[|s.taken|..] {
      assert s.taken + s.queue == s.pushed;
    } else {
      assert s.taken + s.queue == s.taken;
    }
  }

  /** Only the stream of one action has been taken from. */
  ghost predicate OneActed(sys: Sys, sys': Sys, t: nat) {
    && sys'.actions.Keys == sys.actions.Keys && sys'.begun == sys.begun && sys'.dispatching == sys.dispatching
    && Acted(sys.c, sys'.c)
    && forall j :: j in sys.c.streams && j != t ==> sys'.c.streams[j].taken == sys.c.streams[j].taken
  }

  lemma ActionIsOne(sys: Sys, ev: Event)
    requires ev.Act? || ev.Quit? || ev.Finish? || ev.Spend?
    requires ActionStep(sys, ev).Some? && Marked(sys.c)
    ensures Runs(sys, ev.i) && OneActed(sys, ActionStep(sys, ev).value, StreamOf(sys, ev.i))
  {
    ActionActs(sys, ev);
    hide BodyStep, Acted;
  }

  lemma OneActedKeeps(sys: Sys, sys': Sys, i: nat)
    requires SysInv(sys) && Runs(sys, i) && OneActed(sys, sys', StreamOf(sys, i))
    ensures SysInv(sys')
  {
    ActedKeepsTable(sys.c, sys'.c);
    ActedKeepsMarks(sys.c, sys'.c);
    hide TableInv, Marked, ActedStream;
    forall t | t in sys'.c.streams && sys'.c.streams[t].taken != [] ensures HasAction(sys', t) {
      if t == StreamOf(sys, i) {
        assert Runs(sys', i);
      } else {
        var j :| Runs(sys, j) && StreamOf(sys, j) == t;
        assert Runs(sys', j);
      }
    }
  }

  lemma ActedKeepsMarks(c: Conn, c': Conn)
    requires Marked(c) && Acted(c, c')
    ensures Marked(c')
  {
    forall k | 0 <= k < |c.called| ensures c'.streams[c.called[k]].actionCalled {
      assert ActedStream(c.called[k], c.streams[c.called[k]], c'.streams[c.called[k]]);
    }
  }

  lemma ActionKeeps(sys: Sys, ev: Event)
    requires ev.Act? || ev.Quit? || ev.Finish? || ev.Spend?
    requires SysInv(sys) && ActionStep(sys, ev).Some?
    ensures SysInv(ActionStep(sys, ev).value) && Acted(sys.c, ActionStep(sys, ev).value.c)
  {
    ActionIsOne(sys, ev);
    hide ActionStep, TableInv, Acted, Marked;
    OneActedKeeps(sys, ActionStep(sys, ev).value, ev.i);
  }

  lemma StartKeeps(sys: Sys)
    requires SysInv(sys) && StartNext(sys).Some?
    ensures SysInv(StartNext(sys).value) && StartNext(sys).value.c == sys.c
  {
    var sys' := StartNext(sys).value;
    hide TableInv, Find;
    forall t | t in sys'.c.streams && sys'.c.streams[t].taken != [] ensures HasAction(sys', t) {
      var j :| Runs(sys, j) && StreamOf(sys, j) == t;
      assert Runs(sys', j);
    }
  }

  /** The receive side has moved on: no stream leaves, no mark is cleared, nothing is taken. */
  ghost predicate MovedOn(c: Conn, c': Conn) {
    && c.called <= c'.called && Marked(c')
    && (forall t :: t in c.streams ==> t in c'.streams)
    && (forall t :: t in c'.streams && c'.streams[t].taken != [] ==> t in c.streams && c.streams[t].taken != [])
  }

  lemma MovedOnKeeps(sys: Sys, sys': Sys)
    requires SysInv(sys) && TableInv(sys'.c) && MovedOn(sys.c, sys'.c)
    requires sys'.actions == sys.actions && !sys'.dispatching && sys.begun <= sys'.begun <= |sys'.c.called|
    ensures SysInv(sys')
  {
    hide TableInv;
    forall t | t in sys'.c.streams && sys'.c.streams[t].taken != [] ensures HasAction(sys', t) {
      var j :| Runs(sys, j) && StreamOf(sys, j) == t;
      assert Runs(sys', j);
    }
  }

  lemma FrameMovesOn(dec: Decoder, c: Conn, f: Frame)
    requires TableInv(c) && Marked(c) && ProcessFrame(dec, c, f).Go?
    ensures MovedOn(c, ProcessFrame(dec, c, f).c) && TableInv(ProcessFrame(dec, c, f).c)
  {
    FrameKeepsTable(dec, c, f);
    var c' := ProcessFrame(dec, c, f).c;
    hide ProcessFrame, Queues;
    forall i | 0 <= i < |c'.called|
      ensures c'.called[i] != 0 && c'.called[i] in c'.streams && c'.streams[c'.called[i]].actionCalled
    {
      assert Effect(c, f, c', c'.called[i]);
      assert i < |c.called| ==> c'.called[i] == c.called[i];
    }
    forall t | t in c.streams ensures t in c'.streams { assert Effect(c, f, c', t); }
    forall t | t in c'.streams && c'.streams[t].taken != [] ensures t in c.streams && c.streams[t].taken != [] {
      assert Effect(c, f, c', t);
    }
  }

  lemma FaultMovesOn(dec: Decoder, c: Conn, f: Frame)
    requires TableInv(c) && Marked(c)
    requires ProcessFrame(dec, c, f).Thrown? && KeepsConnection(ProcessFrame(dec, c, f).fault)
    ensures MovedOn(c, ProcessFrame(dec, c, f).c) && TableInv(ProcessFrame(dec, c, f).c)
  {
    ErrorKeepsTable(dec, c, f);
    var c' := ProcessFrame(dec, c, f).c;
    hide ProcessFrame, KeepsConnection;
    forall t | t in c'.streams && c'.streams[t].taken != [] ensures t in c.streams && c.streams[t].taken != [] {
      assert SameHistory(Before(c, t), Before(c', t));
    }
    forall i | 0 <= i < |c'.called|
      ensures c'.called[i] != 0 && c'.called[i] in c'.streams && c'.streams[c'.called[i]].actionCalled
    {
      assert SameHistory(Before(c, c.called[i]), Before(c', c.called[i]));
    }
  }

  /** Every event keeps the invariant. */
  lemma StepKeepsSys(dec: Decoder, sys: Sys, ev: Event)
    requires SysInv(sys) && Step(dec, sys, ev).Some?
    ensures SysInv(Step(dec, sys, ev).value)
  {
    hide ProcessFrame, TableInv, KeepsConnection, MovedOn, StartNext, ActionStep;
    match ev
    case Accept(f) =>
      FrameMovesOn(dec, sys.c, f);
      CallGrows(sys.c, ProcessFrame(dec, sys.c, f).c);
      MovedOnKeeps(sys, Step(dec, sys, ev).value);
    case Fail(f) =>
      FaultMovesOn(dec, sys.c, f);
      CallGrows(sys.c, ProcessFrame(dec, sys.c, f).c);
      MovedOnKeeps(sys, Step(dec, sys, ev).value);
    case Start => StartKeeps(sys);
    case _ => ActionKeeps(sys, ev);
  }

  lemma CallGrows(c: Conn, c': Conn)
    requires MovedOn(c, c')
    ensures |c.called| <= |c'.called|
  {
  }

  lemma StartIsSys()
    ensures SysInv(START)
  {
  }

  lemma {:induction false} RunKeepsSys(dec: Decoder, sys: Sys, evs: seq<Event>)
    requires SysInv(sys) && Run(dec, sys, evs).Some?
    ensures SysInv(Run(dec, sys, evs).value)
    decreases |evs|
  {
    if evs != [] {
      hide SysInv, Step;
      RunKeepsSys(dec, sys, evs[..|evs| - 1]);
      StepKeepsSys(dec, Run(dec, sys, evs[..|evs| - 1]).value, evs[|evs| - 1]);
    }
  }
}
