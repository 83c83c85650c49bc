/** DATA frames as a sender puts them on the wire, and as the peer cuts them apart. */
module DataFrames {
  import opened Basics
  import opened Http2Frame

  datatype Sent = Sent(payload: seq<byte>, end: bool)

  /** What fnGetStreamWindowSize and fnSendQueueReady let through in one turn of a send loop. */
  datatype Grant = Blocked | Window(n: nat)

  /** The turns among `grants` that fnSendQueueReady lets through. */
  function Turns(grants: seq<Grant>): nat {
    if grants == [] then 0
    else Turns(grants[..|grants| - 1]) + (if grants[|grants| - 1].Blocked? then 0 else 1)
  }

  lemma TurnsSoFar(grants: seq<Grant>, k: nat)
    requires k < |grants|
    ensures Turns(grants[..k + 1]) == Turns(grants[..k]) + (if grants[k].Blocked? then 0 else 1)
  {
    assert grants[..k + 1][..k] == grants[..k];
  }

  /** A turn let through sends at least a byte and no more than is left. */
  lemma TurnAdvances(limit: nat, bufLen: nat, at: nat, offered: nat, turns: nat)
    requires limit > 0 && at < bufLen && offered > 0 && at >= Least(bufLen, turns)
    ensures var n := Least(Least(limit, bufLen - at), offered);
            1 <= n <= limit && n <= bufLen - at && at + n >= Least(bufLen, turns + 1)
  {
  }

  function DataHeader(n: nat, end: bool, id: nat): seq<byte>
    requires id < TWO_32
  {
    BuildHeader(n, 0, if end then 1 else 0, id)
  }

  function Emitted(sent: seq<Sent>, id: nat): seq<byte>
    requires id < TWO_32
  {
    if sent == [] then []
    else
      var last := sent[|sent| - 1];
      Emitted(sent[..|sent| - 1], id) + (DataHeader(|last.payload|, last.end, id) + last.payload)
  }

  function Payload(sent: seq<Sent>): seq<byte> {
    if sent == [] then [] else Payload(sent[..|sent| - 1]) + sent[|sent| - 1].payload
  }

  lemma EmitOne(sent: seq<Sent>, s: Sent, id: nat)
    requires id < TWO_32
    ensures Emitted(sent + [s], id) == Emitted(sent, id) + (DataHeader(|s.payload|, s.end, id) + s.payload)
    ensures Payload(sent + [s]) == Payload(sent) + s.payload
  {
    assert (sent + [s])[..|sent|] == sent;
  }

  /** END_STREAM stands on the last frame and on no other. */
  predicate EndsOnLast(sent: seq<Sent>) {
    sent != [] && sent[|sent| - 1].end && forall i :: 0 <= i < |sent| - 1 ==> !sent[i].end
  }

  predicate Open(sent: seq<Sent>) { forall i :: 0 <= i < |sent| ==> !sent[i].end }

  // ----- the peer's view -----

  function AsFrame(s: Sent, id: nat): Frame {
    Frame(Header(|s.payload|, 0, if s.end then 1 else 0, id, false), s.payload)
  }

  function AsFrames(sent: seq<Sent>, id: nat): seq<Frame> {
    seq(|sent|, i requires 0 <= i < |sent| => AsFrame(sent[i], id))
  }

  lemma {:induction false} WireSnoc(fs: seq<Frame>, f: Frame)
    ensures WireAll(fs + [f]) == WireAll(fs) + Wire(f)
    decreases |fs|
  {
    hide Wire;
    if fs == [] {
      assert fs + [f] == [f] && [f][1..] == [];
    } else {
      assert (fs + [f])[1..] == fs[1..] + [f];
      WireSnoc(fs[1..], f);
    }
  }

  lemma {:induction false} EmittedIsWire(sent: seq<Sent>, id: nat)
    requires id < TWO_31 && (id / TWO_27) % 2 == 0
    requires forall i :: 0 <= i < |sent| ==> |sent[i].payload| < TWO_24
    ensures Emitted(sent, id) == WireAll(AsFrames(sent, id))
    decreases |sent|
  {
    if sent != [] {
      var (front, last) := (sent[..|sent| - 1], sent[|sent| - 1]);
      EmittedIsWire(front, id);
      assert AsFrames(sent, id) == AsFrames(front, id) + [AsFrame(last, id)];
      WireSnoc(AsFrames(front, id), AsFrame(last, id));
      var h := DataHeader(|last.payload|, last.end, id);
      BuildIsExactIff(|last.payload|, 0, if last.end then 1 else 0, id, []);
      WireParse(h);
      hide ParseHeader, BuildHeader, WireHeader;
      assert h + [] == h && h[..HEADER_LEN] == h;
    }
  }

  /** The peer cuts the bytes into exactly the frames sent, for every id that is a stream id with
      bit 27 clear. */
  lemma PeerSeesFrames(sent: seq<Sent>, id: nat)
    requires id < TWO_31 && (id / TWO_27) % 2 == 0
    requires forall i :: 0 <= i < |sent| ==> |sent[i].payload| < TWO_24
    ensures Cut(Emitted(sent, id)) == Pieces(AsFrames(sent, id), [])
  {
    EmittedIsWire(sent, id);
    CutWire(AsFrames(sent, id), []);
    hide WireAll, Emitted;
    assert WireAll(AsFrames(sent, id)) + [] == WireAll(AsFrames(sent, id));
  }
}
