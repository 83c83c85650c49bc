/** A header block split over HEADERS and CONTINUATION frames (sections 6.2 and 6.10 of RFC 7540). */
module Http2Reassembly {
  import opened Http2Frame
  import opened Http2Proto
  import opened Http2Table
  import opened Http2Runs

  /** A HEADERS frame whose announced fields are there and which does not depend on itself. */
  predicate HeadersShape(c: Conn, f: Frame) {
    && f.hdr.typ == 1
    && (Padded(f) ==> f.payload != [])
    && |Body(f)| <= c.settings.maxFrame
    && (Priority(f) ==> |Body(f)| >= 5 && Dependency(Body(f)) != f.hdr.streamId)
    && BlockFits(f)
  }

  function Payloads(fs: seq<Frame>): seq<seq<byte>> { seq(|fs|, i requires 0 <= i < |fs| => fs[i].payload) }

  /** CONTINUATION frames of stream `t`, END_HEADERS on the last and on no other. */
  predicate Continuations(fs: seq<Frame>, t: nat) {
    && fs != []
    && (forall i :: 0 <= i < |fs| ==> IsContinuation(fs[i], t))
    && (forall i :: 0 <= i < |fs| - 1 ==> !EndOfHeader(fs[i]))
    && EndOfHeader(fs[|fs| - 1])
  }

  ghost predicate FreshStream(c: Conn, t: nat) {
    && TableInv(c) && t % 2 == 1 && !HeaderOpen(c)
    && forall k :: k in c.streams ==> k < t
  }

  lemma {:induction false} ConcatSnoc(parts: seq<seq<byte>>, p: seq<byte>)
    ensures Concat(parts + [p]) == Concat(parts) + p
    decreases |parts|
  {
    if parts == [] {
      assert parts + [p] == [p] && [p][1..] == [];
    } else {
      assert (parts + [p])[1..] == parts[1..] + [p];
      ConcatSnoc(parts[1..], p);
    }
  }

  /** The connection while the block is open. */
  function OpenState(c: Conn, first: Frame, parts: seq<seq<byte>>): Conn {
    var s := NewStream(true, false, [], c.settings.initWindow).(fragments := parts, streamEnd := EndOfStream(first));
    SetHeaderOpen(Put(WithConnection(c), first.hdr.streamId, s), true)
  }

  lemma HeadersAreFragment(dec: Decoder, c: Conn, f: Frame) returns (stripped: nat)
    requires FreshStream(c, f.hdr.streamId) && HeadersShape(c, f)
    ensures var (c0, rest) := (WithConnection(c), if Priority(f) then Body(f)[5..] else Body(f));
            && |rest| >= PadLen(f) && rest[..|rest| - PadLen(f)] == BlockOf(f)
            && f.hdr.streamId !in c0.streams && (forall k :: k in c0.streams ==> k <= f.hdr.streamId)
            && ProcessFrame(dec, c, f) ==
               HeaderFragment(dec, c0, f.hdr.streamId, rest, PadLen(f), EndOfHeader(f), EndOfStream(f), stripped)
  {
    hide Bit, FromBe32, HeaderFragment;
    var rest := if Priority(f) then Body(f)[5..] else Body(f);
    assert rest[..|rest| - PadLen(f)] == BlockOf(f);
    stripped := PadField(f) + if Priority(f) then 5 else 0;
    assert ProcessFrame(dec, c, f) == OnHeaders(dec, WithConnection(c), f) by { hide OnHeaders; }
    hide ProcessFrame;
  }

  lemma FirstOpens(dec: Decoder, c: Conn, first: Frame)
    requires FreshStream(c, first.hdr.streamId) && HeadersShape(c, first) && !EndOfHeader(first)
    ensures ProcessFrame(dec, c, first) == Go(OpenState(c, first, [BlockOf(first)]))
  {
    var n := HeadersAreFragment(dec, c, first);
    hide ProcessFrame, TableInv, Bit;
  }

  lemma OpenStateShape(c: Conn, first: Frame, parts: seq<seq<byte>>)
    requires FreshStream(c, first.hdr.streamId)
    ensures var (o, t) := (OpenState(c, first, parts), first.hdr.streamId);
            && t in o.streams && 0 in o.streams && WithConnection(o) == o
            && o.streams[t] ==
               NewStream(true, false, [], c.settings.initWindow).(fragments := parts, streamEnd := EndOfStream(first))
            && o.dyn == c.dyn && o.settings == c.settings
  {
    hide Bit;
  }

  lemma MiddleExtends(dec: Decoder, c: Conn, first: Frame, parts: seq<seq<byte>>, f: Frame)
    requires FreshStream(c, first.hdr.streamId) && IsContinuation(f, first.hdr.streamId) && !EndOfHeader(f)
    ensures ProcessFrame(dec, OpenState(c, first, parts), f) == Go(OpenState(c, first, parts + [f.payload]))
  {
    hide Bit, ProcessFrame;
    var (t, o, o') := (first.hdr.streamId, OpenState(c, first, parts), OpenState(c, first, parts + [f.payload]));
    OpenStateShape(c, first, parts);
    OneMorePart(c, first, parts, f.payload);
    assert t % 2 == 1;
    hide OpenState, FreshStream, EndOfHeader, EndOfStream;
    ContinuationIsProcessed(dec, o, f);
  }

  lemma OneMorePart(c: Conn, first: Frame, parts: seq<seq<byte>>, p: seq<byte>)
    requires FreshStream(c, first.hdr.streamId)
    ensures var (t, o) := (first.hdr.streamId, OpenState(c, first, parts));
            t in o.streams && OpenState(c, first, parts + [p]) == Put(o, t, o.streams[t].(fragments := parts + [p]))
  {
    hide Bit, TableInv;
  }

  lemma ContinuationIsProcessed(dec: Decoder, c: Conn, f: Frame)
    requires f.hdr.typ == 9 && f.hdr.streamId % 2 == 1 && f.hdr.streamId in c.streams && WithConnection(c) == c
    ensures ProcessFrame(dec, c, f) == OnContinuation(dec, c, f)
  {
    hide OnContinuation;
  }

  lemma {:induction false} MiddlesExtend(dec: Decoder, c: Conn, first: Frame, fs: seq<Frame>)
    requires FreshStream(c, first.hdr.streamId) && HeadersShape(c, first) && !EndOfHeader(first)
    requires forall i :: 0 <= i < |fs| ==> IsContinuation(fs[i], first.hdr.streamId) && !EndOfHeader(fs[i])
    ensures RunFrames(dec, c, [first] + fs) == Go(OpenState(c, first, [BlockOf(first)] + Payloads(fs)))
    decreases |fs|
  {
    var b := BlockOf(first);
    hide Payloads;
    assert RunFrames(dec, c, []) == Go(c);
    hide *;
    if fs == [] {
      FirstOpens(dec, c, first);
      NoPayloads(b);
      assert [first] + fs == [] + [first];
      RunSnoc(dec, c, [], first);
    } else {
      var (front, f) := (fs[..|fs| - 1], fs[|fs| - 1]);
      MiddlesExtend(dec, c, first, front);
      MiddleExtends(dec, c, first, [b] + Payloads(front), f);
      LastPayload(b, fs);
      assert [first] + fs == ([first] + front) + [f];
      RunSnoc(dec, c, [first] + front, f);
    }
  }

  lemma NoPayloads(b: seq<byte>)
    ensures [b] + Payloads([]) == [b]
  {
  }

  lemma LastPayload(b: seq<byte>, fs: seq<Frame>)
    requires fs != []
    ensures [b] + Payloads(fs) == [b] + Payloads(fs[..|fs| - 1]) + [fs[|fs| - 1].payload]
  {
  }

  /** The fields a single HEADERS frame must decode to; a CONTINUATION does not look at them. */
  predicate Acceptable(fields: Fields, endStream: bool) {
    && (NonEmptyField(fields, ":path") || NonEmptyField(fields, ":status"))
    && (endStream ==> Find(fields, ":scheme") != [])
  }

  /** The connection after the complete block, as the single frame leaves it. */
  function ClosedState(c: Conn, t: nat, d: Decoded, endStream: bool): Conn
    requires d.Decoded?
  {
    var c1 := SetHeaderOpen(Put(WithConnection(c).(dyn := d.dyn), t,
      NewStream(false, true, d.fields, c.settings.initWindow)), false);
    if endStream then FinishRequest(c1, t, NewStream(false, true, d.fields, c.settings.initWindow))
    else AnswerExpect(c1, t, d.fields)
  }

  function MarkReceived(c: Conn, t: nat): Conn {
    if t in c.streams then Put(c, t, c.streams[t].(headerReceived := true)) else c
  }

  lemma SingleFrame(dec: Decoder, c: Conn, f: Frame)
    requires FreshStream(c, f.hdr.streamId) && HeadersShape(c, f) && EndOfHeader(f)
    ensures var (d, o) := (dec(BlockOf(f), c.dyn, [], c.settings), ProcessFrame(dec, c, f));
            if d.Refused? then o.Thrown? && o.fault == d.fault
            else if Acceptable(d.fields, EndOfStream(f)) then o == Go(ClosedState(c, f.hdr.streamId, d, EndOfStream(f)))
            else o.Thrown? && o.fault.code == WRONG_HEADER
  {
    var n := HeadersAreFragment(dec, c, f);
    hide ProcessFrame, WithConnection, TableInv, Bit, Find;
  }

  lemma PutTwice(c: Conn, t: nat, a: Stream, b: Stream)
    ensures Put(Put(c, t, a), t, b) == Put(c, t, b)
  {}

  lemma PutBesideFlag(c: Conn, t: nat, a: Stream, x: bool, y: bool)
    requires t != 0
    ensures SetHeaderOpen(Put(c, t, a), x) == Put(SetHeaderOpen(c, x), t, a)
    ensures SetHeaderOpen(SetHeaderOpen(c, x), y) == SetHeaderOpen(c, y)
  {
    assert SetHeaderOpen(Put(c, t, a), x).streams == Put(SetHeaderOpen(c, x), t, a).streams;
    assert SetHeaderOpen(SetHeaderOpen(c, x), y).streams == SetHeaderOpen(c, y).streams;
  }

  /** Closing the flag over an open block leaves the table as if the flag had never been set. */
  lemma FlagForgotten(c0: Conn, t: nat, s: Stream, s1: Stream, dyn: DynTable)
    requires t != 0
    ensures SetHeaderOpen(Put(SetHeaderOpen(Put(c0, t, s), true).(dyn := dyn), t, s1), false)
         == Put(SetHeaderOpen(c0.(dyn := dyn), false), t, s1)
  {
    var cd := c0.(dyn := dyn);
    assert SetHeaderOpen(Put(c0, t, s), true).(dyn := dyn) == SetHeaderOpen(Put(cd, t, s), true);
    PutBesideFlag(cd, t, s, true, false);
    PutTwice(SetHeaderOpen(cd, true), t, s, s1);
    PutBesideFlag(SetHeaderOpen(cd, true), t, s1, false, false);
  }

  lemma MarkedPut(b: Conn, t: nat, n: Stream, end: bool)
    ensures FinishRequest(Put(b, t, n.(headerReceived := true, streamEnd := true)), t,
            n.(headerReceived := true, streamEnd := true))
         == MarkReceived(FinishRequest(Put(b, t, n), t, n), t)
    ensures AnswerExpect(Put(b, t, n.(headerReceived := true)), t, n.fields) ==
            MarkReceived(AnswerExpect(Put(b, t, n), t, n.fields), t)
  {
    hide Find;
    PutTwice(b, t, n, n.(headerReceived := true));
    assert FinishRequest(Put(b, t, n.(headerReceived := true, streamEnd := true)), t,
      n.(headerReceived := true, streamEnd := true)).streams
        == MarkReceived(FinishRequest(Put(b, t, n), t, n), t).streams;
  }

  /** Completing the open block and placing the finished one differ in the HEADER_RECEIVED bit. */
  lemma CompletedIsMarked(c0: Conn, t: nat, s: Stream, d: Decoded, end: bool)
    requires t != 0 && d.Decoded?
             && s == NewStream(true, false, [], s.window).(fragments := s.fragments, streamEnd := s.streamEnd)
    ensures var (n, b) := (NewStream(false, true, d.fields, s.window), c0.(dyn := d.dyn));
            var c1 := SetHeaderOpen(Put(b, t, n), false);
            (CompleteBlock(SetHeaderOpen(Put(c0, t, s), true), t, s, d, end)
             == MarkReceived(if end then FinishRequest(c1, t, n) else AnswerExpect(c1, t, d.fields), t))
  {
    var n := NewStream(false, true, d.fields, s.window);
    FlagForgotten(c0, t, s, n.(headerReceived := true, streamEnd := end), d.dyn);
    PutBesideFlag(c0.(dyn := d.dyn), t, n, false, false);
    MarkedPut(SetHeaderOpen(c0.(dyn := d.dyn), false), t, n, end);
    hide SetHeaderOpen, Put, FinishRequest, AnswerExpect, MarkReceived;
  }

  lemma LastCloses(dec: Decoder, c: Conn, first: Frame, parts: seq<seq<byte>>, f: Frame)
    requires FreshStream(c, first.hdr.streamId) && IsContinuation(f, first.hdr.streamId) && EndOfHeader(f)
    ensures var (d, o) := (dec(Concat(parts + [f.payload]), c.dyn, [], c.settings),
                           ProcessFrame(dec, OpenState(c, first, parts), f));
            if d.Refused? then o.Thrown? && o.fault == d.fault
            else o == Go(MarkReceived(ClosedState(c, first.hdr.streamId, d, EndOfStream(first) || EndOfStream(f)),
              first.hdr.streamId))
  {
    hide Bit, Find, Concat;
    var (t, o) := (first.hdr.streamId, OpenState(c, first, parts));
    OpenStateShape(c, first, parts);
    var s := o.streams[t];
    var s1 := s.(fragments := parts + [f.payload]);
    var (d, end) := (dec(Concat(s1.fragments), c.dyn, [], c.settings), EndOfStream(first) || EndOfStream(f));
    assert t != 0 && ProcessFrame(dec, o, f) == OnContinuation(dec, o, f);
    if d.Decoded? {
      CompletedIsMarked(WithConnection(c), t, s, d, end);
      assert CompleteBlock(o, t, s1, d, end) == CompleteBlock(o, t, s, d, end);
      hide CompleteBlock, OpenState, FreshStream, ProcessFrame, Dispatch, WithConnection;
    }
  }

  lemma PartsOfSplit(b: seq<byte>, conts: seq<Frame>)
    requires conts != []
    ensures [b] + Payloads(conts[..|conts| - 1]) + [conts[|conts| - 1].payload] == [b] + Payloads(conts)
    ensures Concat([b] + Payloads(conts)) == b + Concat(Payloads(conts))
  {
    assert ([b] + Payloads(conts))[1..] == Payloads(conts);
  }

  lemma FirstAndLast(first: Frame, conts: seq<Frame>)
    requires conts != []
    ensures [first] + conts == ([first] + conts[..|conts| - 1]) + [conts[|conts| - 1]]
  {}

  /** The whole split: the decoder is called once, on the joined fragments. */
  lemma SplitRun(dec: Decoder, c: Conn, first: Frame, conts: seq<Frame>)
    requires FreshStream(c, first.hdr.streamId) && HeadersShape(c, first) && !EndOfHeader(first)
    requires Continuations(conts, first.hdr.streamId)
    ensures var (t, o) := (first.hdr.streamId, RunFrames(dec, c, [first] + conts));
            var (d, end) := (dec(BlockOf(first) + Concat(Payloads(conts)), c.dyn, [], c.settings),
                             EndOfStream(first) || EndOfStream(conts[|conts| - 1]));
            if d.Refused? then o.Thrown? && o.fault == d.fault else o == Go(MarkReceived(ClosedState(c, t, d, end), t))
  {
    var (n, b) := (|conts| - 1, BlockOf(first));
    var (front, last) := (conts[..n], conts[n]);
    PartsOfSplit(b, conts);
    assert forall i :: 0 <= i < n ==> IsContinuation(front[i], first.hdr.streamId) && !EndOfHeader(front[i]);
    assert IsContinuation(last, first.hdr.streamId) && EndOfHeader(last);
    hide *;
    FirstAndLast(first, conts);
    MiddlesExtend(dec, c, first, front);
    RunSnoc(dec, c, [first] + front, last);
    LastCloses(dec, c, first, [b] + Payloads(front), last);
  }

  /** Header-block reassembly: for a new highest stream and any split of a block, the decoder sees
      the same bytes, table and empty field list as for one HEADERS frame.  It refuses both or neither.
      Once decoded, the split always goes through, and the two agree, the HEADER_RECEIVED bit aside,
      exactly when the fields are acceptable to a single frame. */
  lemma SplitIsReassembled(dec: Decoder, c: Conn, first: Frame, conts: seq<Frame>, whole: Frame)
    requires FreshStream(c, first.hdr.streamId) && whole.hdr.streamId == first.hdr.streamId
    requires HeadersShape(c, first) && !EndOfHeader(first) && HeadersShape(c, whole) && EndOfHeader(whole)
    requires Continuations(conts, first.hdr.streamId)
    requires EndOfStream(whole) == (EndOfStream(first) || EndOfStream(conts[|conts| - 1]))
    requires BlockOf(whole) == BlockOf(first) + Concat(Payloads(conts))
    ensures var t := first.hdr.streamId;
            var d := dec(BlockOf(whole), c.dyn, [], c.settings);
            var (split, single) := (RunFrames(dec, c, [first] + conts), ProcessFrame(dec, c, whole));
            && (d.Refused? ==> split.Thrown? && single.Thrown? && split.fault == single.fault == d.fault)
            && (d.Decoded? ==> split.Go?)
            && (d.Decoded? ==> (single.Go? && split.c == MarkReceived(single.c, t) <==>
              Acceptable(d.fields, EndOfStream(whole))))
  {
    SplitRun(dec, c, first, conts);
    SingleFrame(dec, c, whole);
    hide *;
  }
}
