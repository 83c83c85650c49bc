/** The window-limited loop that sends a slice of a mapped file as DATA frames. */
module FileSender {
  import opened Basics
  import opened Http2Frame
  import opened DataFrames

  /** One turn after the frames `sent`: let through, it sends one frame of the least of the frame limit,
      what is left of the slice and the window granted. */
  function Turn(sent: seq<Sent>, slice: seq<byte>, grant: Grant, limit: nat): seq<Sent> {
    var at := |Payload(sent)|;
    if at >= |slice| || grant.Blocked? then sent
    else
      var n := Least(Least(limit, |slice| - at), grant.n);
      sent + [Sent(slice[at..at + n], at + n == |slice|)]
  }

  function Planned(slice: seq<byte>, grants: seq<Grant>, limit: nat): seq<Sent> {
    if grants == [] then []
    else Turn(Planned(slice, grants[..|grants| - 1], limit), slice, grants[|grants| - 1], limit)
  }

  lemma PlanOneTurn(slice: seq<byte>, grants: seq<Grant>, k: nat, limit: nat)
    requires k < |grants|
    ensures Planned(slice, grants[..k + 1], limit) == Turn(Planned(slice, grants[..k], limit), slice, grants[k], limit)
  {
    hide Turn;
    assert grants[..k + 1][..k] == grants[..k];
  }

  lemma TurnIdle(sent: seq<Sent>, slice: seq<byte>, grant: Grant, limit: nat)
    ensures grant.Blocked? || |Payload(sent)| >= |slice| ==> Turn(sent, slice, grant, limit) == sent
  {
  }

  class Slice {
    const id: nat
    const maxFrame: nat
    const header: array<byte>
    var wire: seq<byte>

    constructor (id: nat, maxFrame: nat)
      requires id < TWO_32 && 16384 <= maxFrame < TWO_24
      ensures this.id == id && this.maxFrame == maxFrame && wire == [] && fresh(header) && header.Length == HEADER_LEN
    {
      this.id, this.maxFrame, wire := id, maxFrame, [];
      header := new byte[HEADER_LEN](_ => 0);
    }

    /** One frame in two writes: the header, then the bytes at the map's offset. */
    method SendFrame(data: seq<byte>, end: bool)
      requires id < TWO_32 && header.Length == HEADER_LEN
      modifies this`wire, header
      ensures wire == old(wire) + (DataHeader(|data|, end, id) + data)
    {
      var h := DataHeader(|data|, end, id);
      forall k | 0 <= k < HEADER_LEN { header[k] := h[k]; }
      assert header[..] == h;
      wire := wire + header[..];
      wire := wire + data;
    }

    ghost predicate OnWire(sent: seq<Sent>, slice: seq<byte>, transferred: nat)
      reads this
    {
      && id < TWO_32 && maxFrame > HEADER_LEN && header.Length == HEADER_LEN
      && wire == Emitted(sent, id) && transferred == |Payload(sent)| <= |slice|
    }

    /** One turn: blocked, it sends nothing. */
    method SendTurn(slice: seq<byte>, ghost sent: seq<Sent>, grant: Grant, transferred: nat) returns (next: nat)
      requires OnWire(sent, slice, transferred) && transferred < |slice|
      modifies this`wire, header
      ensures OnWire(Turn(sent, slice, grant, maxFrame - HEADER_LEN), slice, next)
    {
      if grant.Blocked? { return transferred; }
      var n := Least(Least(maxFrame - HEADER_LEN, |slice| - transferred), grant.n);
      var data := slice[transferred..transferred + n];
      var end := |slice| - (transferred + n) == 0;
      EmitOne(sent, Sent(data, end), id);
      assert Turn(sent, slice, grant, maxFrame - HEADER_LEN) == sent + [Sent(data, end)];
      hide Emitted, Payload, Turn, DataHeader;
      SendFrame(data, end);
      next := transferred + n;
    }

    /** The send loop over the turns it gets; running out of them is a stop or a reset. */
    method SendSlice(slice: seq<byte>, grants: seq<Grant>) returns (transferred: nat)
      requires OnWire([], slice, 0)
      modifies this`wire, header
      ensures OnWire(Planned(slice, grants, maxFrame - HEADER_LEN), slice, transferred)
    {
      transferred := 0;
      var turn: nat := 0;
      ghost var limit := maxFrame - HEADER_LEN;
      assert Planned(slice, grants[..0], limit) == [];
      hide Emitted, Payload, Planned, Turn;
      while transferred < |slice| && turn < |grants|
        invariant turn <= |grants| && OnWire(Planned(slice, grants[..turn], limit), slice, transferred)
        decreases |grants| - turn
      {
        PlanOneTurn(slice, grants, turn, limit);
        transferred := SendTurn(slice, Planned(slice, grants[..turn], limit), grants[turn], transferred);
        turn := turn + 1;
      }
      PlanStays(slice, grants, turn, limit);
    }
  }

  /** Once the slice is out no turn adds anything. */
  lemma {:induction false} PlanStays(slice: seq<byte>, grants: seq<Grant>, k: nat, limit: nat)
    requires k <= |grants| && (k == |grants| || |Payload(Planned(slice, grants[..k], limit))| >= |slice|)
    ensures Planned(slice, grants, limit) == Planned(slice, grants[..k], limit)
    decreases |grants| - k
  {
    hide Planned;
    if k == |grants| {
      assert grants[..k] == grants;
    } else {
      PlanOneTurn(slice, grants, k, limit);
      PlanStays(slice, grants, k + 1, limit);
    }
  }

  /** What a partial or complete delivery of the slice looks like. */
  predicate Delivers(sent: seq<Sent>, slice: seq<byte>, limit: nat) {
    && Payload(sent) <= slice
    && (forall i :: 0 <= i < |sent| ==> 1 <= |sent[i].payload| <= limit)
    && (if Payload(sent) == slice && slice != [] then EndsOnLast(sent) else Open(sent))
  }

  /** A turn that is let through sends at least one byte of an unfinished slice. */
  lemma TurnDelivers(sent: seq<Sent>, slice: seq<byte>, grant: Grant, limit: nat)
    requires Delivers(sent, slice, limit) && limit > 0 && (grant.Window? ==> grant.n > 0)
    ensures Delivers(Turn(sent, slice, grant, limit), slice, limit)
    ensures grant.Window? && |Payload(sent)| < |slice| ==> |Payload(Turn(sent, slice, grant, limit))| > |Payload(sent)|
  {
    TurnIdle(sent, slice, grant, limit);
    var at := |Payload(sent)|;
    if at < |slice| && grant.Window? {
      var n := Least(Least(limit, |slice| - at), grant.n);
      var s := Sent(slice[at..at + n], at + n == |slice|);
      EmitOne(sent, s, 0);
      assert Turn(sent, slice, grant, limit) == sent + [s];
      assert Payload(sent) == slice[..at];
      hide Payload, Turn, Least;
      assert slice[..at] + slice[at..at + n] == slice[..at + n];
      assert Payload(sent + [s]) == slice[..at + n];
      assert at + n < |slice| ==> Open(sent + [s]);
      assert at + n == |slice| ==> slice[..at + n] == slice && EndsOnLast(sent + [s]);
    }
  }

  /** What the turns deliver.  The payloads are a prefix of the slice in frames of 1 to `limit` bytes;
      END_STREAM stands on the frame that completes a non-empty slice and on no other; and every turn
      let through advances, so as many turns as there are bytes complete it. */
  lemma {:induction false} PlanDelivers(slice: seq<byte>, grants: seq<Grant>, limit: nat)
    requires limit > 0 && forall i :: 0 <= i < |grants| && grants[i].Window? ==> grants[i].n > 0
    ensures Delivers(Planned(slice, grants, limit), slice, limit)
    ensures |Payload(Planned(slice, grants, limit))| >= Least(|slice|, Turns(grants))
    decreases |grants|
  {
    if grants == [] {
      assert Delivers([], slice, limit);
    } else {
      var (front, grant) := (grants[..|grants| - 1], grants[|grants| - 1]);
      hide Delivers, Turn, Payload;
      PlanDelivers(slice, front, limit);
      TurnDelivers(Planned(slice, front, limit), slice, grant, limit);
    }
  }

  /** The peer's side of a completed slice: its frames, cut from the bytes on the wire, carry the slice
      and only the last one ends the stream.  An empty slice puts nothing on the wire, so its stream is
      never ended. */
  lemma SliceArrives(slice: seq<byte>, grants: seq<Grant>, limit: nat, id: nat)
    requires 0 < limit < TWO_24 && id < TWO_31 && (id / TWO_27) % 2 == 0
    requires forall i :: 0 <= i < |grants| && grants[i].Window? ==> grants[i].n > 0
    requires Turns(grants) >= |slice|
    ensures var pieces := Cut(Emitted(Planned(slice, grants, limit), id));
            && pieces.residual == []
            && FramesBody(pieces.frames) == slice
            && (forall i :: 0 <= i < |pieces.frames| ==> (pieces.frames[i].hdr.flag == 1 <==> i == |pieces.frames| - 1))
            && (pieces.frames == [] <==> slice == [])
  {
    PlanDelivers(slice, grants, limit);
    var sent := Planned(slice, grants, limit);
    PeerSeesFrames(sent, id);
    BodyOfFrames(sent, id);
    assert |AsFrames(sent, id)| == |sent|;
    if sent == [] { assert Payload(sent) == []; }
  }

  function FramesBody(fs: seq<Frame>): seq<byte> {
    if fs == [] then [] else FramesBody(fs[..|fs| - 1]) + fs[|fs| - 1].payload
  }

  lemma {:induction false} BodyOfFrames(sent: seq<Sent>, id: nat)
    ensures FramesBody(AsFrames(sent, id)) == Payload(sent)
    decreases |sent|
  {
    if sent != [] {
      BodyOfFrames(sent[..|sent| - 1], id);
      assert AsFrames(sent, id)[..|sent| - 1] == AsFrames(sent[..|sent| - 1], id);
    }
  }
}
