/** What every accepted frame keeps: the stream table, the request body queues and the action list. */
module Http2Table {
  import opened Http2Frame
  import opened Http2Proto

  // ----- what a frame means, read off the frame alone -----

  predicate IsData(f: Frame, t: nat) { f.hdr.typ == 0 && f.hdr.streamId == t }
  predicate IsHeaders(f: Frame, t: nat) { f.hdr.typ == 1 && f.hdr.streamId == t }
  predicate IsContinuation(f: Frame, t: nat) { f.hdr.typ == 9 && f.hdr.streamId == t }

  /** The payload of a DATA frame without pad length field and padding (section 6.1 of RFC 7540). */
  function DataOf(f: Frame): seq<byte>
    requires PadLen(f) <= |Body(f)|
  {
    Body(f)[..|Body(f)| - PadLen(f)]
  }

  function DataItems(f: Frame, t: nat): seq<Item> {
    if IsData(f, t) && PadLen(f) <= |Body(f)| then [Block(DataOf(f))] else []
  }

  // ----- the invariant -----

  function Bytes(items: seq<Item>): nat {
    if items == [] then 0
    else Bytes(items[..|items| - 1]) + match items[|items| - 1] case Block(d) => |d| case EndMark => 0
  }

  /** The end marker, if there, is the last item and the only one of its kind. */
  predicate EndsOnce(items: seq<Item>) {
    forall i :: 0 <= i < |items| - 1 ==> items[i].Block?
  }

  predicate HasEnd(items: seq<Item>) { items != [] && items[|items| - 1].EndMark? }

  predicate QueueInv(s: Stream) {
    && EndsOnce(s.pushed)
    && (HasEnd(s.pushed) ==> s.streamEnd && s.actionCalled)
    && (s.streamEnd && (s.headerEnd || !s.headerReceived) ==> HasEnd(s.pushed))
    && (s.actionCalled && !s.streamEnd ==> s.pushed != [])
    && s.contentReceived == Bytes(s.pushed)
    && s.taken <= s.pushed
    && (s.queue == s.pushed[|s.taken|..] || (s.reset && !s.headerReceived && s.queue == []))
  }

  predicate ConnectionEntry(s: Stream) {
    !s.streamEnd && !s.headerEnd && !s.reset && !s.actionCalled && s.queue == [] && s.pushed == []
    && s.taken == []
  }

  predicate BlockIsOpen(s: Stream) { s.headerReceived && !s.headerEnd }

  ghost predicate TableInv(c: Conn) {
    && (c.streams == map[] || 0 in c.streams)
    && (forall t :: t in c.streams ==>
      if t == 0 then ConnectionEntry(c.streams[t]) else t % 2 == 1 && QueueInv(c.streams[t]))
    && (HeaderOpen(c) ==> exists t :: t in c.streams && t != 0 && BlockIsOpen(c.streams[t]))
  }

  // ----- the effect of one accepted frame on one stream -----

  predicate FlagsGrow(s: Stream, s': Stream) {
    && (s.streamEnd ==> s'.streamEnd) && (s.headerEnd ==> s'.headerEnd)
    && (s.reset ==> s'.reset) && (s.actionCalled ==> s'.actionCalled)
  }

  /** The stream as it is before the frame; a stream the frame creates starts empty. */
  function Before(c: Conn, t: nat): Stream {
    if t in c.streams then c.streams[t] else NewStream(false, false, [], c.settings.initWindow)
  }

  /** The frame ends the request: END_STREAM on DATA, on a complete HEADERS, or on a header block
      that a CONTINUATION completes. */
  predicate Finishes(c: Conn, f: Frame, t: nat) {
    || (IsData(f, t) && EndOfStream(f))
    || (IsHeaders(f, t) && EndOfHeader(f) && EndOfStream(f))
    || (IsContinuation(f, t) && EndOfHeader(f) && (EndOfStream(f) || Before(c, t).streamEnd))
  }

  function EndItems(c: Conn, f: Frame, t: nat): seq<Item> { if Finishes(c, f, t) then [EndMark] else [] }

  /** The stream is queued for its action by the first DATA frame and whenever a header block ends it. */
  predicate Queues(c: Conn, f: Frame, t: nat) {
    (IsData(f, t) && !Before(c, t).actionCalled) || (!IsData(f, t) && Finishes(c, f, t))
  }

  ghost predicate Effect(c: Conn, f: Frame, c': Conn, t: nat) {
    var (s, s') := (Before(c, t), Before(c', t));
    && (t in c.streams ==> t in c'.streams)
    && (t in c'.streams && t !in c.streams ==> t == f.hdr.streamId || t == 0)
    && s'.pushed == s.pushed + DataItems(f, t) + EndItems(c, f, t) && s'.taken == s.taken
    && FlagsGrow(s, s') && (t != 0 && s.headerReceived ==> s'.headerReceived)
    && (s'.actionCalled <==> s.actionCalled || Queues(c, f, t))
    && (Finishes(c, f, t) ==> !s.streamEnd || IsContinuation(f, t))
    && (Finishes(c, f, t) || IsData(f, t) ==> !HasEnd(s.pushed) && s'.streamEnd == Finishes(c, f, t))
    && (IsContinuation(f, t) ==> !s.actionCalled)
    && (IsHeaders(f, t) && EndOfHeader(f) && EndOfStream(f) ==> !s.streamEnd)
  }

  ghost predicate FrameOk(c: Conn, f: Frame, c': Conn) {
    && TableInv(c')
    && 0 in c'.streams
    && (forall t: nat :: Effect(c, f, c', t))
    && c'.called == c.called + if Queues(c, f, f.hdr.streamId) then [f.hdr.streamId] else []
  }

  lemma BytesPush(items: seq<Item>, i: Item)
    ensures Bytes(items + [i]) == Bytes(items) + match i case Block(d) => |d| case EndMark => 0
  {
    assert (items + [i])[..|items|] == items;
  }

  /** At most windows, reset bits and the queues of reset streams differ. */
  ghost predicate Neutral(c: Conn, c': Conn) {
    && c'.streams.Keys == c.streams.Keys && c'.called == c.called
    && forall t :: t in c.streams ==>
         var (s, s') := (c.streams[t], c'.streams[t]);
         && s' == s.(window := s'.window, reset := s'.reset, queue := s'.queue)
         && (s'.queue == s.queue || (s'.reset && !s.headerReceived && s'.queue == []))
         && (s.reset ==> s'.reset) && (t == 0 ==> s' == s.(window := s'.window))
  }

  lemma NeutralEffect(c: Conn, f: Frame, c': Conn)
    requires TableInv(c) && 0 in c.streams && f.hdr.typ !in {0, 1, 9} && Neutral(c, c')
    ensures FrameOk(c, f, c')
  {
    NeutralTable(c, c');
    hide TableInv, Neutral, EndOfStream, EndOfHeader, DataOf;
    forall t: nat ensures Effect(c, f, c', t) { NeutralStream(c, f, c', t); }
  }

  lemma NeutralTable(c: Conn, c': Conn)
    requires TableInv(c) && 0 in c.streams && Neutral(c, c')
    ensures TableInv(c') && 0 in c'.streams
  {
    if HeaderOpen(c') {
      assert HeaderOpen(c);
      var t :| t in c.streams && t != 0 && BlockIsOpen(c.streams[t]);
      assert t in c'.streams && BlockIsOpen(c'.streams[t]);
    }
  }

  lemma NeutralStream(c: Conn, f: Frame, c': Conn, t: nat)
    requires 0 in c.streams && f.hdr.typ !in {0, 1, 9} && Neutral(c, c')
    ensures Effect(c, f, c', t)
  {
    hide EndOfStream, EndOfHeader, DataOf;
  }

  /** A frame that touches its own stream, and of stream 0 at most the open-block flag. */
  lemma TouchOne(c: Conn, f: Frame, c': Conn)
    requires TableInv(c) && 0 in c.streams && f.hdr.streamId % 2 == 1
    requires c'.streams.Keys == c.streams.Keys + {f.hdr.streamId}
    requires forall t :: t in c.streams && t != f.hdr.streamId ==>
               c'.streams[t] == if t == 0 then c.streams[0].(headerReceived := c'.streams[0].headerReceived)
                 else c.streams[t]
    requires QueueInv(c'.streams[f.hdr.streamId]) && Effect(c, f, c', f.hdr.streamId)
    requires c'.called == c.called + if Queues(c, f, f.hdr.streamId) then [f.hdr.streamId] else []
    requires HeaderOpen(c') ==>
               || BlockIsOpen(c'.streams[f.hdr.streamId])
               || (HeaderOpen(c) && !(f.hdr.streamId in c.streams && BlockIsOpen(c.streams[f.hdr.streamId])))
    ensures FrameOk(c, f, c')
  {
    hide QueueInv;
    var id := f.hdr.streamId;
    assert id in c'.streams && id != 0;
    if HeaderOpen(c') && !BlockIsOpen(c'.streams[id]) {
      var t :| t in c.streams && t != 0 && BlockIsOpen(c.streams[t]);
      assert t != id && t in c'.streams && BlockIsOpen(c'.streams[t]);
    }
    forall t: nat | t != id ensures Effect(c, f, c', t) {}
  }

  /** An accepted DATA frame, with the conditions under which it is accepted. */
  lemma DataAccepted(c: Conn, f: Frame)
    requires f.hdr.typ == 0 && OnData(c, f).Go?
    ensures var (t, c') := (f.hdr.streamId, OnData(c, f).c);
            && t != 0 && t in c.streams && !HeaderOpen(c) && PadLen(f) <= |Body(f)|
            && !c.streams[t].streamEnd && !c.streams[t].reset
            && t in c'.streams && c'.streams == c.streams[t := c'.streams[t]]
            && c'.called == c.called + (if c.streams[t].actionCalled then [] else [t])
            && var (s, s', items) :=
                 (c.streams[t], c'.streams[t], [Block(DataOf(f))] + if EndOfStream(f) then [EndMark] else []);
               s' == s.(pushed := s.pushed + items, queue := s.queue + items, actionCalled := true,
                        streamEnd := EndOfStream(f), contentReceived := s.contentReceived + |DataOf(f)|)
  {
    hide Bit, HeaderOpen, EndOfStream, AcceptData;
    var size := |Body(f)|;
    DataPushed(c, f.hdr.streamId, DataOf(f), if size > 0 then size + PadField(f) else 0, EndOfStream(f));
  }

  lemma DataPushed(c: Conn, t: nat, data: seq<byte>, credit: nat, end: bool)
    requires t in c.streams
    ensures var c' := AcceptData(c, t, data, credit, end);
            && t in c'.streams && c'.streams == c.streams[t := c'.streams[t]]
            && c'.called == c.called + (if c.streams[t].actionCalled then [] else [t])
            && var (s, s', items) := (c.streams[t], c'.streams[t], [Block(data)] + if end then [EndMark] else []);
               s' == s.(pushed := s.pushed + items, queue := s.queue + items, actionCalled := true,
                        streamEnd := s.streamEnd || end, contentReceived := s.contentReceived + |data|)
  {
    var s := c.streams[t];
    assert s.pushed + [Block(data)] + [EndMark] == s.pushed + ([Block(data)] + [EndMark]);
    assert s.queue + [Block(data)] + [EndMark] == s.queue + ([Block(data)] + [EndMark]);
    assert [Block(data)] + [] == [Block(data)];
  }

  lemma DataKeepsQueue(s: Stream, d: seq<byte>, end: bool)
    requires QueueInv(s) && !s.streamEnd && !s.reset
    ensures var items := [Block(d)] + if end then [EndMark] else [];
            && !HasEnd(s.pushed)
            && QueueInv(s.(pushed := s.pushed + items, queue := s.queue + items, actionCalled := true,
                           streamEnd := end, contentReceived := s.contentReceived + |d|))
  {
    var p := s.pushed + [Block(d)];
    BytesPush(s.pushed, Block(d));
    BytesPush(p, EndMark);
    hide Bytes;
    assert EndsOnce(p) && !HasEnd(p);
    QueueAppend(s.pushed, s.taken, [Block(d)]);
    QueueAppend(s.pushed, s.taken, [Block(d)] + [EndMark]);
    assert [Block(d)] + [] == [Block(d)];
    assert s.pushed + ([Block(d)] + [EndMark]) == p + [EndMark];
    hide HasEnd;
    assert HasEnd(p + [EndMark]) by { EndIsLast(p); }
  }

  lemma EndIsLast(p: seq<Item>)
    ensures HasEnd(p + [EndMark])
  {
  }

  lemma QueueAppend(pushed: seq<Item>, taken: seq<Item>, items: seq<Item>)
    requires taken <= pushed
    ensures taken <= pushed + items && (pushed + items)[|taken|..] == pushed[|taken|..] + items
  {
  }

  lemma DataEffect(c: Conn, f: Frame)
    requires TableInv(c) && 0 in c.streams && f.hdr.typ == 0 && OnData(c, f).Go?
    ensures FrameOk(c, f, OnData(c, f).c)
  {
    hide OnData, Bit, DataOf, Body, PadLen, QueueInv, FrameOk, EndOfStream;
    DataAccepted(c, f);
    var (t, c') := (f.hdr.streamId, OnData(c, f).c);
    assert t % 2 == 1 && QueueInv(c.streams[t]);
    hide TableInv;
    DataKeepsQueue(c.streams[t], DataOf(f), EndOfStream(f));
    DataTouches(c, f, c');
  }

  lemma DataTouches(c: Conn, f: Frame, c': Conn)
    requires TableInv(c) && 0 in c.streams && f.hdr.typ == 0 && PadLen(f) <= |Body(f)|
    requires var t := f.hdr.streamId;
             && t in c.streams && t in c'.streams && t % 2 == 1 && c'.streams == c.streams[t := c'.streams[t]]
             && !HeaderOpen(c) && c'.called == c.called + (if c.streams[t].actionCalled then [] else [t])
             && var (s, s', items) :=
                  (c.streams[t], c'.streams[t], [Block(DataOf(f))] + if EndOfStream(f) then [EndMark] else []);
                && QueueInv(s') && !HasEnd(s.pushed) && !s.streamEnd
                && s' == s.(pushed := s.pushed + items, queue := s.queue + items, actionCalled := true,
                            streamEnd := EndOfStream(f), contentReceived := s.contentReceived + |DataOf(f)|)
    ensures FrameOk(c, f, c')
  {
    hide Bit, DataOf, Body, PadLen, QueueInv, EndOfStream;
    var (t, s) := (f.hdr.streamId, c.streams[f.hdr.streamId]);
    assert c'.streams[t].pushed == s.pushed + DataItems(f, t) + EndItems(c, f, t);
    assert Effect(c, f, c', t);
    TouchOne(c, f, c');
  }

  /** The end marker closes a queue that has none. */
  lemma EndKeepsQueue(s: Stream, s': Stream)
    requires QueueInv(s) && !HasEnd(s.pushed) && !(s.reset && !s.headerReceived)
    requires s' == s.(streamEnd := true, actionCalled := true, pushed := s.pushed + [EndMark],
                      queue := s.queue + [EndMark], headerEnd := s'.headerEnd, fields := s'.fields,
                      fragments := s'.fragments)
    ensures QueueInv(s')
  {
    BytesPush(s.pushed, EndMark);
  }

  /** A complete block in one HEADERS frame, when it is accepted. */
  lemma HeaderBlockAccepted(dec: Decoder, c: Conn, id: nat, block: seq<byte>, endStream: bool, stripped: nat)
    requires 0 in c.streams && id != 0 && HeaderBlock(dec, c, id, block, endStream, stripped).Go?
    ensures var c' := HeaderBlock(dec, c, id, block, endStream, stripped).c;
            var d := dec(block, c.dyn, Before(c, id).fields, c.settings);
            && d.Decoded? && c'.dyn == d.dyn && c'.settings == c.settings
            && c'.streams.Keys == c.streams.Keys + {id} && !HeaderOpen(c')
            && (forall t :: t in c.streams && t != id ==>
                  c'.streams[t] == if t == 0 then c.streams[0].(headerReceived := false) else c.streams[t])
            && c'.called == c.called + (if endStream then [id] else [])
            && var s := Before(c, id).(headerEnd := true, fields := d.fields);
               c'.streams[id] == if endStream then Push(s, EndMark).(streamEnd := true, actionCalled := true) else s
  {
    hide Find, NonEmptyField;
    if endStream {
    } else {
      hide FinishRequest;
    }
  }

  function PriorityField(f: Frame): nat { if Priority(f) then 5 else 0 }

  /** The payload holds the fields its flags announce, and the padding. */
  predicate BlockFits(f: Frame) { |Body(f)| >= PriorityField(f) + PadLen(f) }

  /** The header block fragment of a HEADERS frame (section 6.2 of RFC 7540). */
  function BlockOf(f: Frame): seq<byte>
    requires BlockFits(f)
  {
    Body(f)[PriorityField(f)..|Body(f)| - PadLen(f)]
  }

  /** What a HEADERS frame must satisfy to be accepted, the bytes its block has, and the three ways it can go. */
  lemma HeadersAccepted(dec: Decoder, c: Conn, f: Frame)
    requires f.hdr.typ == 1 && OnHeaders(dec, c, f).Go?
    ensures var t := f.hdr.streamId;
            && t != 0 && !Before(c, t).streamEnd && !Before(c, t).reset
            && (t in c.streams && c.streams[t].headerEnd ==> EndOfStream(f))
            && (!EndOfHeader(f) && t in c.streams ==> OnHeaders(dec, c, f).c == c)
            && (EndOfHeader(f) || t !in c.streams ==> BlockFits(f))
            && (!EndOfHeader(f) && t !in c.streams ==>
                  OnHeaders(dec, c, f).c == OpenBlock(c, t, BlockOf(f), EndOfStream(f)))
            && (EndOfHeader(f) ==>
                  OnHeaders(dec, c, f) ==
                    HeaderBlock(dec, c, t, BlockOf(f), EndOfStream(f), PadField(f) + PriorityField(f)))
  {
    hide Bit, HeaderBlock, Dependency, OpenBlock;
    if BlockFits(f) {
      var rest := if Priority(f) then Body(f)[5..] else Body(f);
      assert rest[..|rest| - PadLen(f)] == BlockOf(f);
    }
  }

  lemma NewStreamQueue(s: Stream)
    requires s.pushed == [] && s.queue == [] && s.taken == [] && s.contentReceived == 0 && !s.actionCalled
    requires s.streamEnd ==> s.headerReceived && !s.headerEnd
    ensures QueueInv(s)
  {}

  lemma BlockEffect(dec: Decoder, c: Conn, f: Frame, block: seq<byte>, n: nat)
    requires TableInv(c) && 0 in c.streams && f.hdr.typ == 1 && f.hdr.streamId % 2 == 1 && EndOfHeader(f)
    requires var s := Before(c, f.hdr.streamId); QueueInv(s) && !s.streamEnd && !s.reset
    requires HeaderBlock(dec, c, f.hdr.streamId, block, EndOfStream(f), n).Go?
    ensures FrameOk(c, f, HeaderBlock(dec, c, f.hdr.streamId, block, EndOfStream(f), n).c)
  {
    var (t, end) := (f.hdr.streamId, EndOfStream(f));
    HeaderBlockAccepted(dec, c, t, block, end, n);
    var c' := HeaderBlock(dec, c, t, block, end, n).c;
    hide HeaderBlock, Bit, Bytes, FrameOk, TableInv, QueueInv, EndOfHeader;
    BlockEndsQueue(Before(c, t), c'.streams[t], end);
    BlockTouches(c, f, c');
  }

  lemma BlockEndsQueue(s: Stream, s': Stream, end: bool)
    requires QueueInv(s) && !s.streamEnd && !s.reset
    requires s' == (if end then Push(s, EndMark).(streamEnd := true, actionCalled := true) else s)
                   .(headerEnd := true, fields := s'.fields)
    ensures QueueInv(s') && !HasEnd(s.pushed)
  {
    hide Bytes;
    if end { EndKeepsQueue(s, s'); }
  }

  lemma BlockTouches(c: Conn, f: Frame, c': Conn)
    requires TableInv(c) && 0 in c.streams && f.hdr.typ == 1 && f.hdr.streamId % 2 == 1 && EndOfHeader(f)
    requires c'.streams.Keys == c.streams.Keys + {f.hdr.streamId} && !HeaderOpen(c')
    requires forall t :: t in c.streams && t != f.hdr.streamId ==>
               c'.streams[t] == if t == 0 then c.streams[0].(headerReceived := false) else c.streams[t]
    requires c'.called == c.called + (if EndOfStream(f) then [f.hdr.streamId] else [])
    requires var (s, s') := (Before(c, f.hdr.streamId), c'.streams[f.hdr.streamId]);
             && !s.streamEnd && !s.reset && !HasEnd(s.pushed) && QueueInv(s')
             && s' == (if EndOfStream(f) then Push(s, EndMark).(streamEnd := true, actionCalled := true) else s)
                      .(headerEnd := true, fields := s'.fields)
    ensures FrameOk(c, f, c')
  {
    var (t, s) := (f.hdr.streamId, Before(c, f.hdr.streamId));
    hide QueueInv, Bit, Bytes;
    assert c'.streams[t].pushed == s.pushed + DataItems(f, t) + EndItems(c, f, t);
    assert Effect(c, f, c', t);
    TouchOne(c, f, c');
  }

  lemma HeadersEffect(dec: Decoder, c: Conn, f: Frame)
    requires TableInv(c) && 0 in c.streams && f.hdr.typ == 1 && f.hdr.streamId % 2 == 1 && OnHeaders(dec, c, f).Go?
    ensures FrameOk(c, f, OnHeaders(dec, c, f).c)
  {
    HeadersAccepted(dec, c, f);
    var (t, c') := (f.hdr.streamId, OnHeaders(dec, c, f).c);
    if t !in c.streams { NewStreamQueue(Before(c, t)); }
    assert QueueInv(Before(c, t)) by { hide OnHeaders, HeaderBlock; }
    hide OnHeaders, Bit, HeaderBlock, QueueInv, TableInv, FrameOk, BlockOf, BlockFits, OpenBlock, EndOfHeader,
      EndOfStream;
    if EndOfHeader(f) {
      BlockEffect(dec, c, f, BlockOf(f), PadField(f) + PriorityField(f));
    } else {
      FirstBlockTouches(c, f, c');
    }
  }

  lemma FirstBlockTouches(c: Conn, f: Frame, c': Conn)
    requires TableInv(c) && 0 in c.streams && f.hdr.typ == 1 && f.hdr.streamId % 2 == 1 && !EndOfHeader(f)
    requires f.hdr.streamId in c.streams ==> c' == c
    requires f.hdr.streamId !in c.streams ==>
               BlockFits(f) && c' == OpenBlock(c, f.hdr.streamId, BlockOf(f), EndOfStream(f))
    ensures FrameOk(c, f, c')
  {
    hide QueueInv, Bit, BlockOf, BlockFits;
    var t := f.hdr.streamId;
    if t !in c.streams { NewStreamQueue(c'.streams[t]); }
    assert QueueInv(c'.streams[t]);
    TouchOne(c, f, c');
  }

  lemma ContinuationAccepted(dec: Decoder, c: Conn, f: Frame)
    requires 0 in c.streams && OnContinuation(dec, c, f).Go?
    ensures var (t, c') := (f.hdr.streamId, OnContinuation(dec, c, f).c);
            && t != 0 && t in c.streams && BlockIsOpen(c.streams[t]) && !c.streams[t].actionCalled
            && c'.streams.Keys == c.streams.Keys && c'.settings == c.settings
            && (forall j :: j in c.streams && j != t && j != 0 ==> c'.streams[j] == c.streams[j])
            && var (s, s') := (c.streams[t], c'.streams[t]);
               var parts := s.fragments + [f.payload];
               var end := EndOfHeader(f) && (s.streamEnd || EndOfStream(f));
               && c'.called == c.called + (if end then [t] else [])
               && (!EndOfHeader(f) ==> c' == Put(c, t, s.(fragments := parts)))
               && (EndOfHeader(f) ==>
                     var d := dec(Concat(parts), c.dyn, s.fields, c.settings);
                     && d.Decoded? && c'.dyn == d.dyn
                     && c'.streams[0] == c.streams[0].(headerReceived := false)
                     && var done := s.(fragments := [], fields := d.fields, headerEnd := true);
                        s' == if end then Push(done, EndMark).(streamEnd := true, actionCalled := true) else done)
  {
    hide Bit, Concat, Find;
    if EndOfHeader(f) && (c.streams[f.hdr.streamId].streamEnd || EndOfStream(f)) {
    } else {
      hide FinishRequest;
    }
  }

  lemma ContinuationEffect(dec: Decoder, c: Conn, f: Frame)
    requires TableInv(c) && 0 in c.streams && f.hdr.typ == 9 && f.hdr.streamId % 2 == 1 && OnContinuation(dec, c, f).Go?
    ensures FrameOk(c, f, OnContinuation(dec, c, f).c)
  {
    ContinuationAccepted(dec, c, f);
    var (t, c') := (f.hdr.streamId, OnContinuation(dec, c, f).c);
    assert QueueInv(c.streams[t]) by { hide OnContinuation; }
    hide OnContinuation, Bit, Concat, TableInv, QueueInv, FrameOk, EndOfHeader, EndOfStream;
    PartKeepsQueue(c.streams[t], c'.streams[t], EndOfHeader(f) && (c.streams[t].streamEnd || EndOfStream(f)));
    PartTouches(c, f, c');
  }

  lemma PartKeepsQueue(s: Stream, s': Stream, end: bool)
    requires QueueInv(s) && BlockIsOpen(s) && !s.actionCalled
    requires s' == (if end then Push(s, EndMark).(streamEnd := true, actionCalled := true) else s)
                   .(headerEnd := s'.headerEnd, fields := s'.fields, fragments := s'.fragments)
    requires s'.headerEnd ==> end || !s.streamEnd
    ensures QueueInv(s') && !HasEnd(s.pushed)
  {
    hide Bytes;
    if end { EndKeepsQueue(s, s'); }
  }

  lemma PartTouches(c: Conn, f: Frame, c': Conn)
    requires TableInv(c) && 0 in c.streams && f.hdr.typ == 9 && f.hdr.streamId % 2 == 1 && f.hdr.streamId in c.streams
    requires c'.streams.Keys == c.streams.Keys
    requires forall j :: j in c.streams && j != f.hdr.streamId ==>
               c'.streams[j] == if j == 0 then c.streams[0].(headerReceived := c'.streams[0].headerReceived)
                                else c.streams[j]
    requires var (t, s, s') := (f.hdr.streamId, c.streams[f.hdr.streamId], c'.streams[f.hdr.streamId]);
             var end := EndOfHeader(f) && (s.streamEnd || EndOfStream(f));
             && QueueInv(s') && !HasEnd(s.pushed) && BlockIsOpen(s) && !s.actionCalled
             && c'.called == c.called + (if end then [t] else [])
             && (if EndOfHeader(f) then !HeaderOpen(c') else BlockIsOpen(s'))
             && s' == (if end then Push(s, EndMark).(streamEnd := true, actionCalled := true) else s)
                      .(headerEnd := s'.headerEnd, fields := s'.fields, fragments := s'.fragments)
             && (s'.headerEnd <==> EndOfHeader(f))
    ensures FrameOk(c, f, c')
  {
    hide QueueInv, Bit, Bytes, EndOfHeader, EndOfStream;
    var (t, s) := (f.hdr.streamId, c.streams[f.hdr.streamId]);
    assert c'.streams[t].pushed == s.pushed + DataItems(f, t) + EndItems(c, f, t);
    assert Effect(c, f, c', t);
    TouchOne(c, f, c');
  }

  ghost predicate OnlyWindows(c: Conn, c': Conn) {
    && c'.streams.Keys == c.streams.Keys && c'.called == c.called && c'.out == c.out && c'.dyn == c.dyn
    && (forall t :: t in c.streams ==> c'.streams[t] == c.streams[t].(window := c'.streams[t].window))
  }

  lemma SettingTouchesWindows(c: Conn, ident: nat, v: nat)
    requires ApplySetting(c, ident, v).Go?
    ensures OnlyWindows(c, ApplySetting(c, ident, v).c)
  {
    hide WindowShift, ShiftWindows;
    if ident == 4 { ShiftTouchesWindows(c.streams, WindowShift(v, c.settings.initWindow)); }
  }

  lemma ShiftTouchesWindows(streams: map<nat, Stream>, delta: int)
    ensures var shifted := ShiftWindows(streams, delta);
            && shifted.Keys == streams.Keys
            && forall t :: t in streams ==> shifted[t] == streams[t].(window := shifted[t].window)
  {
  }

  lemma {:induction false} SettingsTouchWindows(c: Conn, p: seq<byte>)
    requires |p| % 6 == 0 && ApplySettings(c, p).Go?
    ensures OnlyWindows(c, ApplySettings(c, p).c)
    decreases |p|
  {
    if p != [] {
      var o := ApplySetting(c, Be16(p), FromBe32(p[2..]));
      SettingTouchesWindows(c, Be16(p), FromBe32(p[2..]));
      hide Be16, FromBe32, ApplySetting;
      SettingsTouchWindows(o.c, p[6..]);
    }
  }

  lemma ResetIsNeutral(c: Conn, f: Frame)
    requires OnReset(c, f).Go?
    ensures Neutral(c, OnReset(c, f).c)
  {}

  lemma SettingsAreNeutral(c: Conn, f: Frame)
    requires OnSettings(c, f).Go?
    ensures Neutral(c, OnSettings(c, f).c)
  {
    if !Ack(f) {
      SettingsTouchWindows(c, f.payload);
      hide ApplySettings;
    }
  }

  lemma WindowUpdateIsNeutral(c: Conn, f: Frame)
    requires OnWindowUpdate(c, f).Go?
    ensures Neutral(c, OnWindowUpdate(c, f).c)
  {
    hide FromBe32;
  }

  lemma OtherIsNeutral(dec: Decoder, c: Conn, f: Frame)
    requires f.hdr.typ !in {0, 1, 9} && Dispatch(dec, c, f).Go?
    ensures Neutral(c, Dispatch(dec, c, f).c)
  {
    hide OnReset, OnSettings, OnWindowUpdate, FromBe32, Bit, Neutral;
    if f.hdr.typ == 3 { ResetIsNeutral(c, f); }
    else if f.hdr.typ == 4 { SettingsAreNeutral(c, f); }
    else if f.hdr.typ == 8 { WindowUpdateIsNeutral(c, f); }
    else { SameIsNeutral(c, Dispatch(dec, c, f).c); }
  }

  lemma SameIsNeutral(c: Conn, c': Conn)
    requires c'.streams == c.streams && c'.called == c.called
    ensures Neutral(c, c')
  {
  }

  lemma OtherEffect(dec: Decoder, c: Conn, f: Frame)
    requires TableInv(c) && 0 in c.streams && f.hdr.typ !in {0, 1, 9} && Dispatch(dec, c, f).Go?
    ensures FrameOk(c, f, Dispatch(dec, c, f).c)
  {
    OtherIsNeutral(dec, c, f);
    hide TableInv, Dispatch, Neutral, FrameOk;
    NeutralEffect(c, f, Dispatch(dec, c, f).c);
  }

  lemma ConnectionEntered(c: Conn)
    requires TableInv(c)
    ensures var c0 := WithConnection(c);
            && TableInv(c0) && 0 in c0.streams
            && (forall t: nat :: Before(c0, t) == Before(c, t))
            && (forall t: nat :: t in c0.streams <==> t in c.streams || t == 0)
  {
    if c.streams.Keys == {} { assert c.streams == map[]; }
  }

  /** Every accepted frame keeps the table invariant, has the stated effect on every stream and
      queues at most its own stream. */
  lemma FrameKeepsTable(dec: Decoder, c: Conn, f: Frame)
    requires TableInv(c) && ProcessFrame(dec, c, f).Go?
    ensures FrameOk(c, f, ProcessFrame(dec, c, f).c)
  {
    var c0 := WithConnection(c);
    ConnectionEntered(c);
    var c' := ProcessFrame(dec, c, f).c;
    hide TableInv, WithConnection, NewStream, FrameOk, Dispatch;
    assert f.hdr.streamId == 0 || f.hdr.streamId % 2 == 1;
    assert ProcessFrame(dec, c, f) == Dispatch(dec, c0, f) && c0.called == c.called by { CalledEntered(c); }
    hide ProcessFrame;
    DispatchEffect(dec, c0, f);
    EffectEntered(c, c0, f, c');
  }

  lemma CalledEntered(c: Conn)
    ensures WithConnection(c).called == c.called
  {
  }

  lemma EffectEntered(c: Conn, c0: Conn, f: Frame, c': Conn)
    requires FrameOk(c0, f, c') && c0.called == c.called && forall t: nat :: Before(c0, t) == Before(c, t)
    requires forall t: nat :: t in c0.streams <==> t in c.streams || t == 0
    ensures FrameOk(c, f, c')
  {
    hide TableInv, NewStream;
    forall t: nat ensures Effect(c, f, c', t) {
      assert Effect(c0, f, c', t);
    }
  }

  lemma DispatchEffect(dec: Decoder, c: Conn, f: Frame)
    requires TableInv(c) && 0 in c.streams && Dispatch(dec, c, f).Go?
    requires f.hdr.streamId == 0 || f.hdr.streamId % 2 == 1
    ensures FrameOk(c, f, Dispatch(dec, c, f).c)
  {
    hide OnData, OnHeaders, OnContinuation, TableInv, FrameOk;
    if f.hdr.typ == 0 {
      DataEffect(c, f);
    } else if f.hdr.typ == 1 {
      assert f.hdr.streamId != 0 by { HeadersAccepted(dec, c, f); }
      HeadersEffect(dec, c, f);
    } else if f.hdr.typ == 9 {
      assert f.hdr.streamId != 0 by { ContinuationAccepted(dec, c, f); }
      ContinuationEffect(dec, c, f);
    } else {
      OtherEffect(dec, c, f);
    }
  }
}
