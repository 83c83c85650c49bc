/** Runs that show what the conditions on resets, late frames and empty queues exclude. */
module Http2Cases {
  import opened Basics
  import opened Http2Frame
  import opened Http2Proto
  import opened Http2Table
  import opened Http2Runs
  import opened Http2Faults
  import opened Http2Bits
  import opened Http2Actions
  import opened Http2Requests
  import opened Http2Interference

  function FrameOf(typ: byte, flag: byte, t: nat, payload: seq<byte>): Frame {
    Frame(Header(|payload|, typ, flag, t, false), payload)
  }

  predicate Small(p: seq<byte>) { |p| <= 16384 }

  /** The block decodes to fields of a request, without `:status`. */
  predicate Serves(d: Decoded) {
    d.Decoded? && NonEmptyField(d.fields, ":path") && Find(d.fields, ":scheme") != [] && Find(d.fields, ":status") == []
  }

  function First(dec: Decoder, a: seq<byte>): Decoded { dec(a, [], [], INIT.settings) }

  /** A connection between two header blocks that has the stream. */
  predicate Ready(c: Conn, t: nat) {
    && 0 in c.streams && t in c.streams && !HeaderOpen(c) && c.settings == INIT.settings
  }

  lemma Flags(f: Frame)
    requires f.hdr.flag in {0, 1, 4, 5}
    ensures !Padded(f) && !Priority(f)
    ensures (EndOfStream(f) <==> f.hdr.flag in {1, 5}) && (EndOfHeader(f) <==> f.hdr.flag in {4, 5})
  {
  }

  lemma WholeGoes(dec: Decoder, t: nat, a: seq<byte>)
    requires t % 2 == 1 && Small(a) && Serves(First(dec, a))
    ensures var o := ProcessFrame(dec, INIT, FrameOf(1, 0x4, t, a));
            && o.Go? && Ready(o.c, t) && o.c.called == []
            && o.c.streams[t] == NewStream(false, true, First(dec, a).fields, 65535) && o.c.dyn == First(dec, a).dyn
  {
    var f := FrameOf(1, 0x4, t, a);
    var c0 := WithConnection(INIT);
    Flags(f);
    assert c0.streams == map[0 := NewStream(false, false, [], 65535)];
    assert Body(f) == a && PadLen(f) == 0 && a[..|a|] == a;
    hide Bit, Find, NonEmptyField, Padded, Priority, EndOfStream, EndOfHeader;
    assert OnHeaders(dec, c0, f) == HeaderBlock(dec, c0, t, a, false, 0) by { hide HeaderBlock; }
    hide OnHeaders;
  }

  lemma DataGoes(dec: Decoder, c: Conn, t: nat, data: seq<byte>, flag: byte)
    requires t % 2 == 1 && Small(data) && flag in {0, 1} && Ready(c, t) && !c.streams[t].streamEnd
             && !c.streams[t].reset
    ensures var o := ProcessFrame(dec, c, FrameOf(0, flag, t, data));
            && o.Go? && Ready(o.c, t) && o.c.dyn == c.dyn
            && o.c.called == c.called + (if c.streams[t].actionCalled then [] else [t])
            && var items := [Block(data)] + if flag == 1 then [EndMark] else [];
               o.c.streams[t] ==
               c.streams[t].(pushed := c.streams[t].pushed + items, queue := c.streams[t].queue + items,
                 actionCalled := true, streamEnd := flag == 1, contentReceived := c.streams[t].contentReceived + |data|)
  {
    var f := FrameOf(0, flag, t, data);
    Flags(f);
    assert Body(f) == data && PadLen(f) == 0 && data[..|data|] == data && DataOf(f) == data;
    hide Bit, Padded, EndOfStream;
    assert ProcessFrame(dec, c, f) == OnData(c, f) && OnData(c, f).Go? by { hide AcceptData; }
    hide ProcessFrame;
    DataAccepted(c, f);
    assert OnData(c, f).c.settings == c.settings && OnData(c, f).c.dyn == c.dyn;
    hide OnData;
  }

  lemma RstGoes(dec: Decoder, c: Conn, t: nat, p: seq<byte>)
    requires t % 2 == 1 && |p| == 4 && Ready(c, t)
    ensures var o := ProcessFrame(dec, c, FrameOf(3, 0, t, p));
            && o.Go? && Ready(o.c, t) && o.c == Put(c, t, o.c.streams[t])
            && o.c.streams[t] ==
               c.streams[t].(reset := true, queue := if c.streams[t].headerReceived then c.streams[t].queue else [])
  {
    hide OnData, OnHeaders, OnContinuation;
  }

  lemma TrailerGoes(dec: Decoder, c: Conn, t: nat, b: seq<byte>)
    requires t % 2 == 1 && Small(b) && Ready(c, t) && !c.streams[t].streamEnd && !c.streams[t].reset
    requires Serves(dec(b, c.dyn, c.streams[t].fields, c.settings))
    ensures var o := ProcessFrame(dec, c, FrameOf(1, 0x5, t, b));
            && o.Go? && Ready(o.c, t) && o.c.called == c.called + [t]
            && var s := c.streams[t];
               o.c.streams[t] == Push(s.(headerEnd := true, fields := dec(b, c.dyn, s.fields, c.settings).fields),
                                      EndMark).(streamEnd := true, actionCalled := true)
  {
    var f := FrameOf(1, 0x5, t, b);
    Flags(f);
    assert Body(f) == b && PadLen(f) == 0 && b[..|b|] == b;
    hide Bit, Find, NonEmptyField, Padded, Priority, EndOfStream, EndOfHeader;
    assert ProcessFrame(dec, c, f) == OnHeaders(dec, c, f) by { hide OnHeaders; }
    hide ProcessFrame;
    assert OnHeaders(dec, c, f) == HeaderBlock(dec, c, t, b, true, 0) by { hide HeaderBlock; }
    hide OnHeaders;
  }

  /** A header block left open, from an empty connection. */
  lemma OpensSplit(dec: Decoder, t: nat, a: seq<byte>)
    requires t % 2 == 1 && Small(a)
    ensures var s := NewStream(true, false, [], 65535).(fragments := [a]);
            var c0 := INIT.(streams := map[0 := NewStream(true, false, [], 65535), t := s]);
            ProcessFrame(dec, INIT, FrameOf(1, 0x0, t, a)) == Go(c0)
  {
    var (h, c0) := (FrameOf(1, 0x0, t, a), WithConnection(INIT));
    Flags(h);
    assert c0.streams == map[0 := NewStream(false, false, [], 65535)];
    assert Body(h) == a && PadLen(h) == 0 && a[..|a|] == a;
    hide Bit, Find, Padded, Priority, EndOfStream, EndOfHeader;
    assert OnHeaders(dec, c0, h) == Go(OpenBlock(c0, t, a, false)) by { hide OpenBlock; }
    assert ProcessFrame(dec, INIT, h) == OnHeaders(dec, c0, h) by { hide OnHeaders; }
    hide ProcessFrame, OnHeaders;
  }

  lemma SplitGoes(dec: Decoder, t: nat, a: seq<byte>, b: seq<byte>)
    requires t % 2 == 1 && Small(a) && Small(b) && First(dec, a + b).Decoded?
    ensures var o := ProcessFrame(dec, INIT, FrameOf(1, 0x0, t, a));
            && o.Go?
            && var o' := ProcessFrame(dec, o.c, FrameOf(9, 0x4, t, b));
               && o'.Go? && Ready(o'.c, t) && o'.c.called == []
               && o'.c.streams[t] == NewStream(true, true, First(dec, a + b).fields, 65535)
  {
    var k := FrameOf(9, 0x4, t, b);
    Flags(k);
    OpensSplit(dec, t, a);
    var c1 := ProcessFrame(dec, INIT, FrameOf(1, 0x0, t, a)).c;
    assert Concat([b]) == b + Concat([]) == b && [a, b][1..] == [b];
    assert Concat([a, b]) == a + b && [a] + [b] == [a, b];
    hide Bit, Find, Padded, Priority, EndOfStream, EndOfHeader, Concat;
    assert ProcessFrame(dec, c1, k) == OnContinuation(dec, c1, k) by { hide OnContinuation; }
    hide ProcessFrame;
  }

  // ----- resets -----

  function Opening(t: nat, a: seq<byte>): Event { Accept(FrameOf(1, 0x4, t, a)) }
  function Data(t: nat, data: seq<byte>): Event { Accept(FrameOf(0, 0x0, t, data)) }
  function LastData(t: nat, data: seq<byte>): Event { Accept(FrameOf(0, 0x1, t, data)) }
  function Trailer(t: nat, b: seq<byte>): Event { Accept(FrameOf(1, 0x5, t, b)) }
  function Rst(t: nat, p: seq<byte>): Event { Accept(FrameOf(3, 0x0, t, p)) }

  lemma FirstEvent(dec: Decoder, ev: Event)
    ensures Run(dec, START, [ev]) == Step(dec, START, ev)
  {
    assert Run(dec, START, []) == Some(START) && [ev][..0] == [];
  }

  /** A complete request of one HEADERS and one DATA frame: a reset is to leave its body and drops it. */
  lemma SingleHeadersLosesBody(dec: Decoder, t: nat, a: seq<byte>, data: seq<byte>, p: seq<byte>)
    requires t % 2 == 1 && Small(a) && Small(data) && |p| == 4 && Serves(First(dec, a))
    ensures var evs := [Opening(t, a)] + [LastData(t, data)];
            var (r, r') := (Run(dec, START, evs), Run(dec, START, evs + [Rst(t, p)]));
            && r.Some? && r'.Some? && t in r.value.c.streams && t in r'.value.c.streams
            && r.value.c.streams[t].queue == [Block(data), EndMark] && r.value.c.streams[t].streamEnd
            && r'.value.c.streams[t].queue == []
  {
    var evs1 := [Opening(t, a)];
    var evs2 := evs1 + [LastData(t, data)];
    WholeGoes(dec, t, a);
    FirstEvent(dec, Opening(t, a));
    OneMoreEvent(dec, START, evs1, LastData(t, data));
    OneMoreEvent(dec, START, evs2, Rst(t, p));
    hide Run, ProcessFrame, Ready, Serves;
    DataGoes(dec, Run(dec, START, evs1).value.c, t, data, 1);
    RstGoes(dec, Run(dec, START, evs2).value.c, t, p);
    assert [] + ([Block(data)] + [EndMark]) == [Block(data), EndMark];
  }

  /** A stream opened over CONTINUATION, one DATA frame received, more to come: a reset is to drop the block
      and keeps it. */
  lemma SplitStreamKeepsBody(dec: Decoder, t: nat, a: seq<byte>, b: seq<byte>, data: seq<byte>, p: seq<byte>)
    requires t % 2 == 1 && Small(a) && Small(b) && Small(data) && |p| == 4 && First(dec, a + b).Decoded?
    ensures var evs := [Accept(FrameOf(1, 0x0, t, a))] + [Accept(FrameOf(9, 0x4, t, b))] + [Data(t, data)];
            var (r, r') := (Run(dec, START, evs), Run(dec, START, evs + [Rst(t, p)]));
            && r.Some? && r'.Some? && t in r.value.c.streams && t in r'.value.c.streams
            && r.value.c.streams[t].queue == [Block(data)] && !r.value.c.streams[t].streamEnd
            && r'.value.c.streams[t].queue == [Block(data)]
  {
    var evs1 := [Accept(FrameOf(1, 0x0, t, a))];
    var evs2 := evs1 + [Accept(FrameOf(9, 0x4, t, b))];
    var evs3 := evs2 + [Data(t, data)];
    hide ProcessFrame, Ready, Small, First;
    SplitGoes(dec, t, a, b);
    FirstEvent(dec, evs1[0]);
    OneFrame(dec, evs1, FrameOf(9, 0x4, t, b));
    hide Run;
    DataGoes(dec, Run(dec, START, evs2).value.c, t, data, 0);
    OneFrame(dec, evs2, FrameOf(0, 0x0, t, data));
    RstGoes(dec, Run(dec, START, evs3).value.c, t, p);
    OneFrame(dec, evs3, FrameOf(3, 0x0, t, p));
    assert [] + ([Block(data)] + []) == [Block(data)];
  }

  /** One more accepted frame. */
  lemma OneFrame(dec: Decoder, evs: seq<Event>, f: Frame)
    requires Run(dec, START, evs).Some? && !Run(dec, START, evs).value.dispatching
    requires ProcessFrame(dec, Run(dec, START, evs).value.c, f).Go?
    ensures var sys := Run(dec, START, evs).value;
            Run(dec, START, evs + [Accept(f)]) == Some(sys.(c := ProcessFrame(dec, sys.c, f).c))
  {
    OneMoreEvent(dec, START, evs, Accept(f));
    hide Run, ProcessFrame;
  }

  // ----- a request that outlives its response -----

  /** HEADERS and a DATA frame are in, the action is started. */
  function Begun(t: nat, a: seq<byte>, data: seq<byte>): seq<Event> { [Opening(t, a)] + [Data(t, data)] + [Start] }

  lemma BegunGoes(dec: Decoder, t: nat, a: seq<byte>, data: seq<byte>)
    requires t % 2 == 1 && Small(a) && Small(data) && Serves(First(dec, a))
    ensures var r := Run(dec, START, Begun(t, a, data));
            && r.Some? && Ready(r.value.c, t) && r.value.c.called == [t] && !r.value.dispatching && r.value.begun == 1
            && r.value.actions == map[0 := Action(Waiting(false), [])] && r.value.c.dyn == First(dec, a).dyn
            && var s := r.value.c.streams[t];
               !s.streamEnd && !s.reset && !s.headerReceived && s.queue == [Block(data)]
                 && s.fields == First(dec, a).fields
  {
    var evs1 := [Opening(t, a)];
    var evs2 := evs1 + [Data(t, data)];
    WholeGoes(dec, t, a);
    FirstEvent(dec, Opening(t, a));
    OneMoreEvent(dec, START, evs1, Data(t, data));
    OneMoreEvent(dec, START, evs2, Start);
    assert START.c.called == [] && Serves(First(dec, a));
    hide Run, ProcessFrame, Ready;
    DataGoes(dec, Run(dec, START, evs1).value.c, t, data, 0);
    assert [] + ([Block(data)] + []) == [Block(data)] && [] + [t] == [t];
    hide DataItems, Find, NonEmptyField;
    assert map[][0 := Action(Waiting(false), [])] == map[0 := Action(Waiting(false), [])];
  }

  lemma OneAction(dec: Decoder, evs: seq<Event>, ev: Event)
    requires Run(dec, START, evs).Some? && (ev.Act? || ev.Quit? || ev.Finish?)
    ensures Run(dec, START, evs + [ev]) == ActionStep(Run(dec, START, evs).value, ev)
  {
    OneMoreEvent(dec, START, evs, ev);
    hide ActionStep;
  }

  function Answered(t: nat, a: seq<byte>, data: seq<byte>): seq<Event> { Begun(t, a, data) + [Quit(0)] + [Finish(0)] }

  lemma QuitAndFinish(sys: Sys, t: nat)
    requires Runs(sys, 0) && StreamOf(sys, 0) == t && sys.actions[0].pc.Waiting?
    ensures var r := ActionStep(sys, Quit(0));
            && r.Some? && Runs(r.value, 0) && r.value.dispatching == sys.dispatching
            && var r' := ActionStep(r.value, Finish(0));
               r'.Some? && r'.value.dispatching == sys.dispatching && Finished(r'.value, t)
  {
    var sys' := ActionStep(ActionStep(sys, Quit(0)).value, Finish(0)).value;
    assert Runs(sys', 0) && sys'.actions[0].pc.Gone? && StreamOf(sys', 0) == t;
  }

  lemma AnsweredGoes(dec: Decoder, t: nat, a: seq<byte>, data: seq<byte>)
    requires t % 2 == 1 && Small(a) && Small(data) && Serves(First(dec, a))
    ensures var r := Run(dec, START, Answered(t, a, data)); r.Some? && !r.value.dispatching && Finished(r.value, t)
  {
    var evs0 := Begun(t, a, data);
    BegunGoes(dec, t, a, data);
    hide Run, Begun, Serves, Small, ActionStep, Finished;
    QuitAndFinish(Run(dec, START, evs0).value, t);
    OneAction(dec, evs0, Quit(0));
    OneAction(dec, evs0 + [Quit(0)], Finish(0));
  }

  /** The action answers without reading the body and is done; the next DATA frame, which the receive loop
      alone would accept, closes the connection. */
  lemma LateDataCloses(dec: Decoder, t: nat, a: seq<byte>, data: seq<byte>, more: seq<byte>)
    requires t % 2 == 1 && Small(a) && Small(data) && Small(more) && Serves(First(dec, a))
    ensures var evs := Answered(t, a, data);
            && Run(dec, START, evs).Some?
            && RunFrames(dec, INIT, Frames(evs) + [Data(t, more).f]).Go?
            && Run(dec, START, evs + [Data(t, more)]).None?
            && Closes(ProcessFrame(dec, Run(dec, START, evs).value.c, Data(t, more).f))
  {
    var evs := Answered(t, a, data);
    assert Begun(t, a, data) + [Quit(0), Finish(0)] == evs;
    assert forall i :: 0 <= i < |evs| ==> !evs[i].Fail? && !evs[i].Spend?;
    hide Run, Frames, RunFrames, ProcessFrame, Answered, Begun, Finished, Alone, Behind, Serves, Small, Ready;
    AnsweredGoes(dec, t, a, data);
    AloneGoes(dec, t, a, data, more);
    BeginFrames(t, a, data, [Quit(0), Finish(0)]);
    AloneIsFrames(dec, evs);
    RunSnoc(dec, INIT, Frames(evs), Data(t, more).f);
    LateFrameIff(dec, evs, Data(t, more).f);
  }

  lemma BeginFrames(t: nat, a: seq<byte>, data: seq<byte>, rest: seq<Event>)
    requires rest == [Quit(0), Finish(0)]
    ensures Frames(Begun(t, a, data) + rest) == [Opening(t, a).f] + [Data(t, data).f]
  {
    var evs := Begun(t, a, data);
    assert evs + rest == (((([] + [Opening(t, a)]) + [Data(t, data)]) + [Start]) + [Quit(0)]) + [Finish(0)];
    assert Frames([]) == [];
    hide Frames;
    var none: Decoder := (b, d, f, s) => Decoded(d, f);
    OneMoreEvent(none, START, [], Opening(t, a));
    OneMoreEvent(none, START, [] + [Opening(t, a)], Data(t, data));
    OneMoreEvent(none, START, [] + [Opening(t, a)] + [Data(t, data)], Start);
    OneMoreEvent(none, START, [] + [Opening(t, a)] + [Data(t, data)] + [Start], Quit(0));
    OneMoreEvent(none, START, [] + [Opening(t, a)] + [Data(t, data)] + [Start] + [Quit(0)], Finish(0));
  }

  lemma AloneGoes(dec: Decoder, t: nat, a: seq<byte>, data: seq<byte>, more: seq<byte>)
    requires t % 2 == 1 && Small(a) && Small(data) && Small(more) && Serves(First(dec, a))
    ensures RunFrames(dec, INIT, ([Opening(t, a).f] + [Data(t, data).f]) + [Data(t, more).f]).Go?
  {
    var (h, d1, d2) := (Opening(t, a).f, Data(t, data).f, Data(t, more).f);
    WholeGoes(dec, t, a);
    assert [] + [h] == [h] && RunFrames(dec, INIT, []) == Go(INIT);
    RunSnoc(dec, INIT, [], h);
    RunSnoc(dec, INIT, [h], d1);
    RunSnoc(dec, INIT, [h] + [d1], d2);
    hide RunFrames, ProcessFrame, Ready;
    var c1 := RunFrames(dec, INIT, [h]).c;
    DataGoes(dec, c1, t, data, 0);
    DataGoes(dec, RunFrames(dec, INIT, [h] + [d1]).c, t, more, 0);
  }

  // ----- front() of an empty queue -----

  /** The action has tested for a reset and is about to take the first block: Act twice. */
  function Tested(t: nat, a: seq<byte>, data: seq<byte>): seq<Event> { Begun(t, a, data) + [Act(0)] + [Act(0)] }

  lemma TestedGoes(dec: Decoder, t: nat, a: seq<byte>, data: seq<byte>)
    requires t % 2 == 1 && Small(a) && Small(data) && Serves(First(dec, a))
    ensures var (r0, r) := (Run(dec, START, Begun(t, a, data)), Run(dec, START, Tested(t, a, data)));
            && r0.Some? && r.Some? && r.value.c == r0.value.c && r.value.begun == 1 && !r.value.dispatching
            && r.value.actions == map[0 := Action(Taking, [])]
  {
    var evs0 := Begun(t, a, data);
    BegunGoes(dec, t, a, data);
    hide Run, Begun;
    hide ActionStep, Serves, Small, Ready;
    TestTwice(Run(dec, START, evs0).value, t);
    OneAction(dec, evs0, Act(0));
    OneAction(dec, evs0 + [Act(0)], Act(0));
  }

  lemma TestTwice(sys: Sys, t: nat)
    requires sys.actions == map[0 := Action(Waiting(false), [])] && sys.c.called == [t] && t in sys.c.streams
    requires sys.c.streams[t].queue != [] && !sys.c.streams[t].reset
    ensures var r := ActionStep(sys, Act(0));
            && r.Some? && ActionStep(r.value, Act(0)) == Some(sys.(actions := map[0 := Action(Taking, [])]))
  {
    assert Put(sys.c, t, sys.c.streams[t]) == sys.c;
    assert map[0 := Action(Waiting(false), [])][0 := Action(Checking, [])] == map[0 := Action(Checking, [])];
    assert map[0 := Action(Checking, [])][0 := Action(Taking, [])] == map[0 := Action(Taking, [])];
    assert ActionStep(sys, Act(0)) == Some(sys.(actions := map[0 := Action(Checking, [])]));
  }

  /** An RST_STREAM between test and front(): the queue was not empty when the action looked. */
  lemma ResetCrashes(dec: Decoder, t: nat, a: seq<byte>, data: seq<byte>, p: seq<byte>)
    requires t % 2 == 1 && Small(a) && Small(data) && |p| == 4 && Serves(First(dec, a))
    ensures var r := Run(dec, START, Tested(t, a, data) + [Rst(t, p)] + [Act(0)]);
            r.Some? && 0 in r.value.actions && r.value.actions[0].pc.Crashed?
  {
    var evs := Tested(t, a, data);
    BegunGoes(dec, t, a, data);
    TestedGoes(dec, t, a, data);
    OneMoreEvent(dec, START, evs, Rst(t, p));
    hide Run, Begun, Tested, ProcessFrame;
    RstGoes(dec, Run(dec, START, evs).value.c, t, p);
    OneAction(dec, evs + [Rst(t, p)], Act(0));
  }

  /** A trailer has queued the stream a second time and its second action is started. */
  function Twice(t: nat, a: seq<byte>, data: seq<byte>, b: seq<byte>): seq<Event> {
    Tested(t, a, data) + [Trailer(t, b)] + [Start]
  }

  /** Two actions on one stream, and what is left in its queue. */
  predicate Racing(sys: Sys, t: nat, first: Pc, second: Pc, queue: seq<Item>) {
    && sys.c.called == [t, t] && t in sys.c.streams && sys.c.streams[t].queue == queue && !sys.c.streams[t].reset
    && sys.actions.Keys == {0, 1} && sys.actions[0].pc == first && sys.actions[1].pc == second
  }

  lemma TrailedGoes(dec: Decoder, t: nat, a: seq<byte>, data: seq<byte>, b: seq<byte>)
    requires t % 2 == 1 && Small(a) && Small(data) && Small(b) && Serves(First(dec, a))
    requires Serves(dec(b, First(dec, a).dyn, First(dec, a).fields, INIT.settings))
    ensures var r := Run(dec, START, Tested(t, a, data) + [Trailer(t, b)]);
            && r.Some? && r.value.begun == 1 && r.value.actions == map[0 := Action(Taking, [])]
            && r.value.c.called == [t, t] && t in r.value.c.streams && !HasStatus(r.value.c, t)
            && r.value.c.streams[t].queue == [Block(data), EndMark] && !r.value.c.streams[t].reset
  {
    var evs := Tested(t, a, data);
    BegunGoes(dec, t, a, data);
    TestedGoes(dec, t, a, data);
    OneMoreEvent(dec, START, evs, Trailer(t, b));
    hide Run, Begun, Tested, ProcessFrame, Small, Ready, Find, NonEmptyField;
    TrailerGoes(dec, Run(dec, START, evs).value.c, t, b);
    assert [Block(data)] + [EndMark] == [Block(data), EndMark] && [t] + [t] == [t, t];
  }

  lemma TwiceGoes(dec: Decoder, t: nat, a: seq<byte>, data: seq<byte>, b: seq<byte>)
    requires t % 2 == 1 && Small(a) && Small(data) && Small(b) && Serves(First(dec, a))
    requires Serves(dec(b, First(dec, a).dyn, First(dec, a).fields, INIT.settings))
    ensures var r := Run(dec, START, Twice(t, a, data, b));
            r.Some? && Racing(r.value, t, Taking, Waiting(false), [Block(data), EndMark])
  {
    var evs := Tested(t, a, data) + [Trailer(t, b)];
    TrailedGoes(dec, t, a, data, b);
    OneMoreEvent(dec, START, evs, Start);
    hide Run, Tested, ProcessFrame, Serves, Small, HasStatus;
  }

  /** The next step of an action on a stream that is not reset, and what it leaves in the queue. */
  function NextStep(pc: Pc, queue: seq<Item>): (Pc, seq<Item>) {
    match pc
    case Waiting(seen) => (if queue == [] && !seen then Polling else Checking, queue)
    case Polling => (Waiting(false), queue)
    case Checking => (Taking, queue)
    case Taking => if queue == [] then (Crashed, queue) else (Holding(queue[0], false), queue[1..])
    case Holding(x, again) => (if x.EndMark? then Closed(Held(pc)) else Refilling(x, false), queue)
    case Refilling(x, seen) =>
      if queue != [] then (Holding(queue[0], false), queue[1..])
      else (if seen then Holding(x, true) else Asking(x), queue)
    case Asking(x) => (Refilling(x, false), queue)
    case _ => (pc, queue)
  }

  lemma RaceStep(sys: Sys, t: nat, i: nat, first: Pc, second: Pc, queue: seq<Item>)
    requires Racing(sys, t, first, second, queue) && i < 2 && Reading(if i == 0 then first else second)
    ensures var (step, r) := (NextStep(if i == 0 then first else second, queue), ActionStep(sys, Act(i)));
            && r.Some?
            && Racing(r.value, t, if i == 0 then step.0 else first, if i == 1 then step.0 else second, step.1)
  {
    var (a, s) := (sys.actions[i], sys.c.streams[t]);
    assert BodyStep(a, s).1.reset == s.reset;
    assert (BodyStep(a, s).0.pc, BodyStep(a, s).1.queue) == NextStep(a.pc, s.queue);
    hide BodyStep, NextStep;
  }

  lemma RaceGoes(dec: Decoder, evs: seq<Event>, t: nat, i: nat, first: Pc, second: Pc, queue: seq<Item>)
    requires Run(dec, START, evs).Some? && Racing(Run(dec, START, evs).value, t, first, second, queue)
    requires i < 2 && Reading(if i == 0 then first else second)
    ensures var step := NextStep(if i == 0 then first else second, queue);
            && Run(dec, START, evs + [Act(i)]).Some?
            && Racing(Run(dec, START, evs + [Act(i)]).value, t,
                      if i == 0 then step.0 else first, if i == 1 then step.0 else second, step.1)
  {
    OneAction(dec, evs, Act(i));
    hide Run, ActionStep, NextStep, Racing;
    RaceStep(Run(dec, START, evs).value, t, i, first, second, queue);
  }

  /** Both actions test, then the first one takes a block. */
  lemma RaceFront(dec: Decoder, evs: seq<Event>, t: nat, x: Item, y: Item)
    requires Run(dec, START, evs).Some? && Racing(Run(dec, START, evs).value, t, Taking, Waiting(false), [x, y])
    ensures var r := Run(dec, START, evs + [Act(1)] + [Act(1)] + [Act(0)]);
            r.Some? && Racing(r.value, t, Holding(x, false), Taking, [y])
  {
    hide Run, Racing;
    RaceGoes(dec, evs, t, 1, Taking, Waiting(false), [x, y]);
    RaceGoes(dec, evs + [Act(1)], t, 1, Taking, Checking, [x, y]);
    RaceGoes(dec, evs + [Act(1)] + [Act(1)], t, 0, Taking, Taking, [x, y]);
    assert [x, y][1..] == [y];
  }

  /** It passes the block on and takes the last item; the second one finds nothing. */
  lemma RaceBack(dec: Decoder, evs: seq<Event>, t: nat, x: Item, y: Item)
    requires Run(dec, START, evs).Some? && Racing(Run(dec, START, evs).value, t, Holding(x, false), Taking, [y])
             && x.Block?
    ensures var r := Run(dec, START, evs + [Act(0)] + [Act(0)] + [Act(1)]);
            r.Some? && Racing(r.value, t, Holding(y, false), Crashed, [])
  {
    hide Run, Racing;
    RaceGoes(dec, evs, t, 0, Holding(x, false), Taking, [y]);
    RaceGoes(dec, evs + [Act(0)], t, 0, Refilling(x, false), Taking, [y]);
    assert [y][1..] == [];
    RaceGoes(dec, evs + [Act(0)] + [Act(0)], t, 1, Holding(y, false), Taking, []);
  }

  /** Without any reset: the first action takes the block and the end marker, between the test of the second
      one and its front(). */
  lemma TwoActionsCrash(dec: Decoder, t: nat, a: seq<byte>, data: seq<byte>, b: seq<byte>)
    requires t % 2 == 1 && Small(a) && Small(data) && Small(b) && Serves(First(dec, a))
    requires Serves(dec(b, First(dec, a).dyn, First(dec, a).fields, INIT.settings))
    ensures var front := Twice(t, a, data, b) + [Act(1)] + [Act(1)] + [Act(0)];
            var r := Run(dec, START, front + [Act(0)] + [Act(0)] + [Act(1)]);
            && r.Some? && t in r.value.c.streams && !r.value.c.streams[t].reset
            && 1 in r.value.actions && r.value.actions[1].pc.Crashed?
  {
    var evs := Twice(t, a, data, b);
    TwiceGoes(dec, t, a, data, b);
    hide Run, Twice, Serves, Small;
    RaceFront(dec, evs, t, Block(data), EndMark);
    RaceBack(dec, evs + [Act(1)] + [Act(1)] + [Act(0)], t, Block(data), EndMark);
  }
}
