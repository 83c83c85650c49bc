/** The send windows with any number of senders on a stream, as when an action has been queued twice.  Every
critical section is that of FlowControl; a sender only knows its own locals. */
module ManySenders {
  import opened Basics
  import opened FlowControl

  /** A sender of stream `s`, and where it stands. */
  datatype Job = Job(s: nat, at: Sender)

  datatype Many = Many(w: Windows, jobs: map<nat, Job>)

  datatype Move =
    | Joins(i: nat, s: nat)
    | Asks(i: nat)                                            // fnGetStreamWindowSize
    | Trims(i: nat, queueFull: bool, bufSize: nat, rest: nat) // fnSendQueueReady
    | Charges(i: nat)                                         // fnUpdateStreamParam
    | Leaves(i: nat)                                          // fnResetReservierteWindowSize
    | Opens(s: nat)
    | Resizes(v: nat)
    | Credits(s: nat, v: nat)

  const NOBODY: Many := Many(INIT.w, map[])

  /** One critical section or frame; a move that is not enabled changes nothing. */
  function After(m: Many, mv: Move): Many {
    var (w, jobs) := (m.w, m.jobs);
    match mv
    case Joins(i, s) => if s != 0 && s in w.wnd && i !in jobs then m.(jobs := jobs[i := Job(s, AtLoop)]) else m
    case Asks(i) =>
      if i in jobs && jobs[i].at.AtLoop? then
        var (w1, g) := GetWindow(w, jobs[i].s);
        Many(w1, jobs[i := Job(jobs[i].s, if g.Some? then Granted(g.value) else Leaving)])
      else m
    case Trims(i, full, bufSize, rest) =>
      if i in jobs && jobs[i].at.Granted? then
        var (w1, n) := QueueReady(w, jobs[i].s, jobs[i].at.wnd, full, bufSize, rest);
        Many(w1, jobs[i := Job(jobs[i].s, if n.Some? then Sending(n.value, true) else AtLoop)])
      else m
    case Charges(i) =>
      if i in jobs && jobs[i].at.Sending? then
        var (w1, ok) := Charge(w, jobs[i].s, jobs[i].at.n);
        Many(w1, jobs[i := Job(jobs[i].s, if ok then AtLoop else Leaving)])
      else m
    case Leaves(i) =>
      if i in jobs && (jobs[i].at.AtLoop? || jobs[i].at.Leaving?) then
        Many(Release(w, jobs[i].s), jobs[i := Job(jobs[i].s, Exited)])
      else m
    case Opens(s) => var o := OpenStream(w, s); if o.Some? then m.(w := o.value) else m
    case Resizes(v) => var o := SetInitial(w, v); if o.Some? then m.(w := o.value) else m
    case Credits(s, v) => var o := AddCredit(w, s, v); if o.Some? then m.(w := o.value) else m
  }

  function RunOf(mvs: seq<Move>): Many
    decreases |mvs|
  {
    if mvs == [] then NOBODY else After(RunOf(mvs[..|mvs| - 1]), mvs[|mvs| - 1])
  }

  // ----- one move -----

  /** What the other streams leave of the connection window. */
  ghost function Room(w: Windows, s: nat): int
    requires 0 in w.wnd
  {
    w.wnd[0] - Sum(w.reserved - {s})
  }

  function Trimmed(g: int, full: bool, bufSize: nat, rest: nat): int {
    if full || g <= 0 then 0 else Min(Min(bufSize, rest), g)
  }

  /** What a sender is about to reserve or charge still fits. */
  ghost predicate Fits(m: Many, mv: Move) {
    0 in m.w.wnd ==>
      match mv
      case Trims(i, full, bufSize, rest) =>
        i in m.jobs && m.jobs[i].at.Granted? ==>
          Trimmed(m.jobs[i].at.wnd, full, bufSize, rest) <= Room(m.w, m.jobs[i].s)
      case Charges(i) => i in m.jobs && m.jobs[i].at.Sending? ==> m.jobs[i].at.n <= Room(m.w, m.jobs[i].s)
      case _ => true
  }

  /** Streams and sizes of the senders are those of the table. */
  ghost predicate JobsOk(m: Many) {
    forall i :: i in m.jobs ==>
      && m.jobs[i].s != 0 && m.jobs[i].s in m.w.wnd
      && (m.jobs[i].at.Granted? ==> m.jobs[i].at.wnd <= MAX_WINDOW)
      && (m.jobs[i].at.Sending? ==> m.jobs[i].at.n <= MAX_WINDOW)
  }

  lemma ChargeIff(w: Windows, s: nat, n: nat)
    requires ReservationsInv(w) && s != 0 && s in w.wnd && n < TWO_32
    ensures Charge(w, s, n).1 && Charge(w, s, n).0.wnd.Keys == w.wnd.Keys
    ensures ReservationsInv(Charge(w, s, n).0) <==> n <= Room(w, s)
  {
    ReleaseKeeps(w, s);
    var (r0, r) := (Release(w, s), Charge(w, s, n).0);
    assert r.reserved == r0.reserved == w.reserved - {s} && r.total == r0.total == Sum(r0.reserved);
    assert r.wnd[0] == w.wnd[0] - n;
    hide Sum, Release;
  }

  lemma TrimIff(w: Windows, s: nat, g: int, full: bool, bufSize: nat, rest: nat)
    requires ReservationsInv(w) && s != 0 && s in w.wnd && g <= MAX_WINDOW
    ensures var (r, n) := QueueReady(w, s, g, full, bufSize, rest);
            && r.wnd == w.wnd && (n.Some? ==> n.value == Trimmed(g, full, bufSize, rest))
            && (ReservationsInv(r) <==> Trimmed(g, full, bufSize, rest) <= Room(w, s))
  {
    var n := Trimmed(g, full, bufSize, rest);
    ReleaseKeeps(w, s);
    var r0 := Release(w, s);
    assert r0.total == Sum(w.reserved - {s}) >= 0;
    if n <= Room(w, s) {
      ReserveKeeps(r0, s, n);
    } else {
      var r := Reserve(r0, s, n);
      SumUpdate(r0.reserved, s, n);
      assert r.total == r0.total + n;
    }
    hide Sum, Release, Reserve;
  }

  lemma AskKeeps(w: Windows, s: nat)
    requires ReservationsInv(w) && s != 0 && s in w.wnd
    ensures var (r, g) := GetWindow(w, s);
            ReservationsInv(r) && r.wnd == w.wnd && g.Some? && g.value <= MAX_WINDOW && Holds(r, s, g.value)
            && r.reserved - {s} == w.reserved - {s}
  {
    GrantIsExact(w, s);
    SumNonNegative(w.reserved - {s});
    hide Sum, GetWindow;
  }

  lemma FrameKeeps(w: Windows, mv: Move)
    requires ReservationsInv(w) && (mv.Opens? || mv.Resizes? || mv.Credits?)
    ensures var r := After(Many(w, map[]), mv).w;
            && ReservationsInv(r) && r.reserved == w.reserved && w.wnd.Keys <= r.wnd.Keys
  {
    hide Sum;
  }

  /** A move keeps the reservations consistent exactly when what it reserves or charges fits. */
  lemma MoveIff(m: Many, mv: Move)
    requires ReservationsInv(m.w) && JobsOk(m)
    ensures JobsOk(After(m, mv)) && (ReservationsInv(After(m, mv).w) <==> Fits(m, mv))
  {
    hide Sum, Charge, QueueReady, GetWindow, Room, Trimmed;
    match mv
    case Joins(_, _) =>
    case Asks(i) => if i in m.jobs { AskKeeps(m.w, m.jobs[i].s); }
    case Trims(i, full, bufSize, rest) =>
      if i in m.jobs && m.jobs[i].at.Granted? {
        TrimIff(m.w, m.jobs[i].s, m.jobs[i].at.wnd, full, bufSize, rest);
        TrimmedIsSmall(m.jobs[i].at.wnd, full, bufSize, rest);
      }
    case Charges(i) =>
      if i in m.jobs && m.jobs[i].at.Sending? { ChargeIff(m.w, m.jobs[i].s, m.jobs[i].at.n); }
    case Leaves(i) => if i in m.jobs { ReleaseKeeps(m.w, m.jobs[i].s); }
    case _ =>
      FrameKeeps(m.w, mv);
      FrameIsAfter(m, mv);
      hide OpenStream, SetInitial, AddCredit;
  }

  lemma TrimmedIsSmall(g: int, full: bool, bufSize: nat, rest: nat)
    requires g <= MAX_WINDOW
    ensures Trimmed(g, full, bufSize, rest) <= MAX_WINDOW
  {
  }

  lemma FrameIsAfter(m: Many, mv: Move)
    requires mv.Opens? || mv.Resizes? || mv.Credits?
    ensures After(m, mv) == m.(w := After(Many(m.w, map[]), mv).w)
  {
    hide OpenStream, SetInitial, AddCredit;
  }

  // ----- whole runs -----

  /** The reservations were consistent, and within the connection window, all the way. */
  ghost predicate Consistent(mvs: seq<Move>)
    decreases |mvs|
  {
    ReservationsInv(RunOf(mvs).w) && (mvs == [] || Consistent(mvs[..|mvs| - 1]))
  }

  /** Every move fitted when it came. */
  ghost predicate AllFit(mvs: seq<Move>)
    decreases |mvs|
  {
    mvs == [] || (AllFit(mvs[..|mvs| - 1]) && Fits(RunOf(mvs[..|mvs| - 1]), mvs[|mvs| - 1]))
  }

  lemma NobodyIsConsistent()
    ensures ReservationsInv(NOBODY.w) && JobsOk(NOBODY)
  {
    assert Sum(map[]) == 0;
  }

  /** Any number of senders on any streams, in any order of their critical sections and of the frames that
      move the windows: the reservations stay consistent, and within the connection window, through the
      whole run exactly when every size reserved by a trim or charged fits in what the other streams'
      reservations leave of the window at that moment. */
  lemma {:induction false} ConsistentIff(mvs: seq<Move>)
    ensures Consistent(mvs) <==> AllFit(mvs)
    ensures Consistent(mvs) ==> ReservationsInv(RunOf(mvs).w) && JobsOk(RunOf(mvs))
    decreases |mvs|
  {
    if mvs == [] {
      NobodyIsConsistent();
    } else {
      var front := mvs[..|mvs| - 1];
      hide ReservationsInv, Fits, After, JobsOk;
      ConsistentIff(front);
      if Consistent(front) { MoveIff(RunOf(front), mvs[|mvs| - 1]); }
    }
  }

  // ----- one sender at a time on every stream -----

  /** The sender is in its loop; between grant and charge it counts on its reservation. */
  predicate Present(j: Job) { !j.at.Exited? }
  predicate Active(j: Job) { j.at.Granted? || j.at.Sending? }

  /** No stream has two senders. */
  predicate Apart(m: Many) {
    forall i, j :: i in m.jobs && j in m.jobs && i != j && Present(m.jobs[i]) && Present(m.jobs[j]) ==>
      m.jobs[i].s != m.jobs[j].s
  }

  /** Then each holds its own reservation. */
  ghost predicate Linked(m: Many) {
    forall i :: i in m.jobs && Active(m.jobs[i]) ==> Holds(m.w, m.jobs[i].s, HeldBy(m.jobs[i].at))
  }

  /** A reservation that is held fits in the room beside the others. */
  lemma HeldFits(w: Windows, s: nat, n: int, k: int)
    requires ReservationsInv(w) && Holds(w, s, n) && (k <= n || k <= 0)
    ensures k <= Room(w, s)
  {
    SumRemove(w.reserved, s);
    if s !in w.reserved { assert w.reserved - {s} == w.reserved; }
    hide Sum;
  }

  lemma LinkedFits(m: Many, mv: Move)
    requires ReservationsInv(m.w) && Linked(m)
    ensures Fits(m, mv)
  {
    hide Sum, Room;
    match mv
    case Trims(i, full, bufSize, rest) =>
      if i in m.jobs && m.jobs[i].at.Granted? {
        var g := m.jobs[i].at.wnd;
        HeldFits(m.w, m.jobs[i].s, g, Trimmed(g, full, bufSize, rest));
      }
    case Charges(i) =>
      if i in m.jobs && m.jobs[i].at.Sending? { HeldFits(m.w, m.jobs[i].s, m.jobs[i].at.n, m.jobs[i].at.n); }
    case _ =>
  }

  /** Entries of other streams stay. */
  lemma OthersHold(w: Windows, r: Windows, s: nat, t: nat, n: int)
    requires r.reserved - {s} == w.reserved - {s} && t != s && Holds(w, t, n)
    ensures Holds(r, t, n)
  {
    assert t in w.reserved <==> t in w.reserved - {s};
    assert t in r.reserved <==> t in r.reserved - {s};
    assert t in w.reserved - {s} ==> w.reserved[t] == (w.reserved - {s})[t] == (r.reserved - {s})[t];
  }

  lemma OwnSection(m: Many, m': Many, i: nat)
    requires Linked(m) && Apart(m) && i in m.jobs && Present(m.jobs[i])
    requires i in m'.jobs && m'.jobs == m.jobs[i := m'.jobs[i]] && m'.jobs[i].s == m.jobs[i].s
    requires m'.w.reserved - {m.jobs[i].s} == m.w.reserved - {m.jobs[i].s}
    requires Active(m'.jobs[i]) ==> Holds(m'.w, m.jobs[i].s, HeldBy(m'.jobs[i].at))
    ensures Linked(m')
  {
    forall j | j in m'.jobs && j != i && Active(m'.jobs[j]) ensures Holds(m'.w, m'.jobs[j].s, HeldBy(m'.jobs[j].at)) {
      assert m'.jobs[j] == m.jobs[j] && Present(m.jobs[j]);
      OthersHold(m.w, m'.w, m.jobs[i].s, m.jobs[j].s, HeldBy(m.jobs[j].at));
    }
  }

  lemma LinkedStep(m: Many, mv: Move)
    requires ReservationsInv(m.w) && JobsOk(m) && Linked(m) && Apart(m)
    ensures Linked(After(m, mv))
  {
    var m' := After(m, mv);
    hide Sum, Charge, QueueReady, GetWindow, Release;
    match mv
    case Joins(_, _) =>
    case Asks(i) =>
      if i in m.jobs && m.jobs[i].at.AtLoop? {
        AskKeeps(m.w, m.jobs[i].s);
        OwnSection(m, m', i);
      }
    case Trims(i, full, bufSize, rest) =>
      if i in m.jobs && m.jobs[i].at.Granted? {
        TrimIsExact(m.w, m.jobs[i].s, m.jobs[i].at.wnd, full, bufSize, rest);
        OwnSection(m, m', i);
      }
    case Charges(i) =>
      if i in m.jobs && m.jobs[i].at.Sending? {
        ChargeIsExact(m.w, m.jobs[i].s, m.jobs[i].at.n);
        OwnSection(m, m', i);
      }
    case Leaves(i) =>
      if i in m.jobs && (m.jobs[i].at.AtLoop? || m.jobs[i].at.Leaving?) {
        ReleaseKeeps(m.w, m.jobs[i].s);
        OwnSection(m, m', i);
      }
    case _ =>
      FrameKeeps(m.w, mv);
      FrameIsAfter(m, mv);
  }

  ghost predicate AllApart(mvs: seq<Move>)
    decreases |mvs|
  {
    Apart(RunOf(mvs)) && (mvs == [] || AllApart(mvs[..|mvs| - 1]))
  }

  /** As long as no stream has two senders, everything fits. */
  lemma {:induction false} ApartFits(mvs: seq<Move>)
    requires AllApart(mvs)
    ensures AllFit(mvs) && Consistent(mvs) && Linked(RunOf(mvs))
    decreases |mvs|
  {
    if mvs == [] {
      ConsistentIff(mvs);
    } else {
      var front := mvs[..|mvs| - 1];
      hide ReservationsInv, Fits, After, JobsOk, Apart, Linked;
      ApartFits(front);
      ConsistentIff(front);
      LinkedFits(RunOf(front), mvs[|mvs| - 1]);
      LinkedStep(RunOf(front), mvs[|mvs| - 1]);
      ConsistentIff(mvs);
    }
  }

  // ----- two senders -----

  const OPEN: Windows := INIT.w.(wnd := map[0 := DEFAULT_WINDOW, 1 := DEFAULT_WINDOW])

  function Joined(): seq<Move> { [Opens(1)] + [Joins(0, 1)] + [Joins(1, 1)] }

  /** Both ask before either charges, and send all they may. */
  function Both(): seq<Move> {
    Joined() + [Asks(0)] + [Asks(1)] + [Trims(0, false, 65535, 65535)] + [Trims(1, false, 65535, 65535)]
    + [Charges(0)] + [Charges(1)]
  }

  lemma OneMove(mvs: seq<Move>, mv: Move)
    ensures RunOf(mvs + [mv]) == After(RunOf(mvs), mv)
  {
    assert (mvs + [mv])[..|mvs|] == mvs;
  }

  lemma JoinedIs()
    ensures RunOf(Joined()) == Many(OPEN, Pair(AtLoop))
  {
    assert RunOf([]) == NOBODY && [] + [Opens(1)] == [Opens(1)];
    assert INIT.w.wnd[1 := DEFAULT_WINDOW] == OPEN.wnd;
    hide RunOf;
    OneMove([], Opens(1));
    OneMove([Opens(1)], Joins(0, 1));
    OneMove([Opens(1)] + [Joins(0, 1)], Joins(1, 1));
  }

  /** Two senders of stream 1, both at the same place. */
  function Pair(at: Sender): map<nat, Job> { map[0 := Job(1, at), 1 := Job(1, at)] }

  lemma BothAsk(mvs: seq<Move>, w: Windows, g: int)
    requires RunOf(mvs) == Many(w, Pair(AtLoop))
    requires GetWindow(w, 1).1 == Some(g) && GetWindow(GetWindow(w, 1).0, 1).1 == Some(g)
    ensures RunOf(mvs + [Asks(0)] + [Asks(1)]) == Many(GetWindow(GetWindow(w, 1).0, 1).0, Pair(Granted(g)))
  {
    hide RunOf, GetWindow;
    OneMove(mvs, Asks(0));
    OneMove(mvs + [Asks(0)], Asks(1));
  }

  lemma BothTrim(mvs: seq<Move>, w: Windows, g: nat, t0: Move, t1: Move)
    requires t0 == Trims(0, false, g, g) && t1 == Trims(1, false, g, g) && RunOf(mvs) == Many(w, Pair(Granted(g)))
    requires QueueReady(w, 1, g, false, g, g).1 == Some(g)
    requires QueueReady(QueueReady(w, 1, g, false, g, g).0, 1, g, false, g, g).1 == Some(g)
    ensures var w' := QueueReady(QueueReady(w, 1, g, false, g, g).0, 1, g, false, g, g).0;
            RunOf(mvs + [t0] + [t1]) == Many(w', Pair(Sending(g, true)))
  {
    hide RunOf, QueueReady;
    OneMove(mvs, t0);
    OneMove(mvs + [t0], t1);
  }

  /** Nine moves, and the connection window is as far below zero as it was above. */
  lemma TwoOverdraw()
    ensures 0 in RunOf(Both()).w.wnd && RunOf(Both()).w.wnd[0] == -65535
  {
    var mvs := Joined();
    var asked := mvs + [Asks(0)] + [Asks(1)];
    var (t0, t1) := (Trims(0, false, 65535, 65535), Trims(1, false, 65535, 65535));
    JoinedIs();
    assert Sum(OPEN.reserved) == 0 && OPEN.wnd[0] == 65535;
    TwoSendersOverdraw(OPEN, 1);
    hide RunOf, Sum, GetWindow, QueueReady, Charge, Joined;
    BothAsk(mvs, OPEN, 65535);
    BothTrim(asked, RunOf(asked).w, 65535, t0, t1);
    BothCharge(asked + [t0] + [t1], 65535);
  }

  lemma BothCharge(mvs: seq<Move>, n: nat)
    requires RunOf(mvs).jobs == Pair(Sending(n, true)) && Charge(RunOf(mvs).w, 1, n).1
    ensures RunOf(mvs + [Charges(0)] + [Charges(1)]).w == Charge(Charge(RunOf(mvs).w, 1, n).0, 1, n).0
  {
    hide RunOf, Charge;
    OneMove(mvs, Charges(0));
    OneMove(mvs + [Charges(0)], Charges(1));
  }
}
