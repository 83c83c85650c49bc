/** DATA frames that leave without a grant: the last frame of program output and error pages.

No window is asked and none is charged for them, so the windows of the server stay above what the
peer still allows by the bytes so written. */
module UngrantedData {
  import opened FlowControl

  // ----- counting -----

  ghost predicate Balanced(a: map<nat, int>, b: map<nat, int>, c: map<nat, int>, d: map<nat, int>) {
    forall k: nat :: At(a, k) + At(b, k) == At(c, k) + At(d, k)
  }

  lemma BalancedRemove(a: map<nat, int>, b: map<nat, int>, c: map<nat, int>, d: map<nat, int>, k: nat)
    requires Balanced(a, b, c, d)
    ensures Balanced(a - {k}, b - {k}, c - {k}, d - {k}) && At(a, k) + At(b, k) == At(c, k) + At(d, k)
  {
    forall j: nat ensures At(a - {k}, j) + At(b - {k}, j) == At(c - {k}, j) + At(d - {k}, j) {
      assert At(a, j) + At(b, j) == At(c, j) + At(d, j);
    }
  }

  lemma {:induction false} SumBalanced(a: map<nat, int>, b: map<nat, int>, c: map<nat, int>, d: map<nat, int>)
    requires Balanced(a, b, c, d)
    ensures Sum(a) + Sum(b) == Sum(c) + Sum(d)
    decreases |a| + |b| + |c| + |d|
  {
    if a != map[] || b != map[] || c != map[] || d != map[] {
      var k :| k in a || k in b || k in c || k in d;
      hide *;
      Smaller(a, k);
      Smaller(b, k);
      Smaller(c, k);
      Smaller(d, k);
      SumRemove(a, k);
      SumRemove(b, k);
      SumRemove(c, k);
      SumRemove(d, k);
      BalancedRemove(a, b, c, d, k);
      SumBalanced(a - {k}, b - {k}, c - {k}, d - {k});
    }
  }

  /** Bytes on the wire that the windows do not show yet, by stream. */
  function Flying(senders: map<nat, Sender>): map<nat, int> { map s | s in senders :: InFlight(senders, s) }

  /** All DATA bytes on the wire, of one stream and of the connection. */
  function DataOf(b: Ledger, s: nat): int { At(b.written, s) + At(b.tails, s) + At(b.pages, s) }

  ghost function AllData(b: Ledger): int { Sum(b.written) + At(b.tails, 0) + At(b.pages, 0) }

  /** What the peer still allows (section 6.9.1 of RFC 7540): on the connection, and on a stream under
      the largest initial size it has announced since the stream was opened. */
  ghost function PeerWindow(sys: Sys): int { DEFAULT_WINDOW + At(sys.book.credit, 0) - AllData(sys.book) }

  function PeerStreamWindow(sys: Sys, s: nat): int {
    At(sys.book.credit, s) + At(sys.book.maxInitial, s) - DataOf(sys.book, s)
  }

  // ----- the ledger in every run -----

  ghost predicate LedgerInv(sys: Sys) {
    forall s: nat :: Account(sys, s)
  }

  ghost predicate Account(sys: Sys, s: nat) {
    var b := sys.book;
    && At(b.written, s) + At(b.skipped, s) == At(b.charged, s) + InFlight(sys.senders, s)
    && 0 <= At(b.tails, s) <= CARRY * At(b.endings, s) && At(b.pages, s) >= 0
  }

  lemma StepKeepsAccount(sys: Sys, ev: Event, t: nat)
    requires Inv(sys) && Account(sys, t)
    ensures Account(Step(sys, ev), t)
  {
    assert StreamInv(sys, t);
    if ev.Ending? || ev.Page? {
      UngrantedAccount(sys, ev, t);
    } else if ev.Write? || ev.Update? {
      SentAccount(sys, ev, t);
    } else {
      hide Sum, ReservationsInv, GetWindow, QueueReady, Charge, SetInitial, AddCredit, OpenStream, Release, RaiseAll;
      hide OutsideLoop, Both, StreamInv;
    }
  }

  lemma SentAccount(sys: Sys, ev: Event, t: nat)
    requires Account(sys, t) && (ev.Write? || ev.Update?)
    ensures Account(Step(sys, ev), t)
  {
    hide Charge, Sum;
  }

  lemma UngrantedAccount(sys: Sys, ev: Event, t: nat)
    requires Account(sys, t) && (ev.Ending? || ev.Page?)
    ensures Account(Step(sys, ev), t)
  {
    hide OutsideLoop;
  }

  lemma {:induction false} RunKeepsLedger(evs: seq<Event>)
    ensures LedgerInv(Run(INIT, evs))
    decreases |evs|
  {
    if evs != [] {
      var front := evs[..|evs| - 1];
      RunKeepsLedger(front);
      RunKeepsInv(front);
      hide Inv, Step, Account;
      forall t: nat ensures Account(Run(INIT, evs), t) {
        StepKeepsAccount(Run(INIT, front), evs[|evs| - 1], t);
      }
    }
  }

  /** Server and peer disagree by the bytes on their way and by those nobody charged: what the peer
      allows is the connection window less the bytes written and not yet charged and less everything
      written without a grant, plus the bytes charged for frames that a reset kept from being written. */
  lemma PeerWindowIs(evs: seq<Event>)
    ensures var sys := Run(INIT, evs);
            && 0 in sys.w.wnd
            && PeerWindow(sys) == sys.w.wnd[0] - Sum(Flying(sys.senders)) + Sum(sys.book.skipped)
                                  - At(sys.book.tails, 0) - At(sys.book.pages, 0)
  {
    RunKeepsInv(evs);
    RunKeepsLedger(evs);
    var sys := Run(INIT, evs);
    var b := sys.book;
    forall k: nat ensures At(b.written, k) + At(b.skipped, k) == At(b.charged, k) + At(Flying(sys.senders), k) {
      assert Account(sys, k);
    }
    SumBalanced(b.written, b.skipped, b.charged, Flying(sys.senders));
  }

  lemma PeerStreamWindowIs(evs: seq<Event>, s: nat)
    requires s in Run(INIT, evs).w.wnd && s != 0
    ensures var Sys(w, senders, b) := Run(INIT, evs);
            PeerStreamWindow(Run(INIT, evs), s) ==
            w.wnd[s] + (At(b.maxInitial, s) - w.initial) - InFlight(senders, s)
              + At(b.skipped, s) - At(b.tails, s) - At(b.pages, s)
  {
    RunKeepsInv(evs);
    RunKeepsLedger(evs);
    assert StreamInv(Run(INIT, evs), s) && Account(Run(INIT, evs), s);
  }

  /** In every run the DATA bytes on the wire are bounded by the initial window plus the credit received,
      plus ten for every ending of program output, plus the error pages; and so on every stream. */
  lemma DataBound(evs: seq<Event>)
    ensures var b := Run(INIT, evs).book;
            AllData(b) <= DEFAULT_WINDOW + At(b.credit, 0) + CARRY * At(b.endings, 0) + At(b.pages, 0)
    ensures var Sys(w, _, b) := Run(INIT, evs);
            forall s :: s in w.wnd && s != 0 ==>
              DataOf(b, s) <= At(b.credit, s) + At(b.maxInitial, s) + CARRY * At(b.endings, s) + At(b.pages, s)
  {
    ConnectionWindowSafety(evs);
    RunKeepsLedger(evs);
    var sys := Run(INIT, evs);
    assert Account(sys, 0);
    forall s | s in sys.w.wnd && s != 0
      ensures DataOf(sys.book, s) <= At(sys.book.credit, s) + At(sys.book.maxInitial, s)
              + CARRY * At(sys.book.endings, s) + At(sys.book.pages, s)
    {
      WindowConservation(evs, s);
      assert Account(sys, s);
    }
  }

  /** A write without a grant, allowed by the state it comes in. */
  predicate Ungranted(sys: Sys, ev: Event) {
    (ev.Ending? && ev.n <= CARRY && OutsideLoop(sys, ev.s)) || (ev.Page? && OutsideLoop(sys, ev.s))
  }

  lemma UngrantedCounts(evs: seq<Event>, ev: Event)
    requires Ungranted(Run(INIT, evs), ev)
    ensures var (sys, sys') := (Run(INIT, evs), Run(INIT, evs + [ev]));
            && PeerWindow(sys') == PeerWindow(sys) - ev.n
            && PeerStreamWindow(sys', ev.s) == PeerStreamWindow(sys, ev.s) - ev.n
            && sys'.w == sys.w && sys'.senders == sys.senders
  {
    RunSnoc(evs, ev);
    hide Run, Sum;
  }

  /** Such a write of n bytes stays within what the peer allows on the connection exactly when n fits in
      the connection window less the bytes in flight, corrected by what earlier frames left uncharged or
      unwritten: all known before the write. */
  lemma UngrantedFitsIff(evs: seq<Event>, ev: Event)
    requires Ungranted(Run(INIT, evs), ev)
    ensures var (Sys(w, senders, b), sys') := (Run(INIT, evs), Run(INIT, evs + [ev]));
            && 0 in w.wnd
            && (PeerWindow(sys') >= 0 <==>
                ev.n <= w.wnd[0] - Sum(Flying(senders)) + Sum(b.skipped) - At(b.tails, 0) - At(b.pages, 0))
  {
    PeerWindowIs(evs);
    UngrantedCounts(evs, ev);
    hide Run, Sum, PeerWindow;
  }

  /** The first such frame of a connection on which no reset came between a charge and its write: exactly
      when n fits in the connection window less the bytes in flight. */
  lemma FirstUngrantedFitsIff(evs: seq<Event>, ev: Event)
    requires Ungranted(Run(INIT, evs), ev)
    requires var b := Run(INIT, evs).book; b.tails == map[] && b.pages == map[] && b.skipped == map[]
    ensures var (Sys(w, senders, _), sys') := (Run(INIT, evs), Run(INIT, evs + [ev]));
            0 in w.wnd && (PeerWindow(sys') >= 0 <==> ev.n <= w.wnd[0] - Sum(Flying(senders)))
  {
    UngrantedFitsIff(evs, ev);
    assert Sum(map[]) == 0;
    hide Run, PeerWindow;
  }

  /** On its own stream nothing is in flight then, and the stream window decides in the same way. */
  lemma UngrantedFitsStreamIff(evs: seq<Event>, ev: Event)
    requires Ungranted(Run(INIT, evs), ev)
    ensures var (Sys(w, _, b), sys') := (Run(INIT, evs), Run(INIT, evs + [ev]));
            && ev.s in w.wnd
            && (PeerStreamWindow(sys', ev.s) >= 0 <==>
                ev.n <= w.wnd[ev.s] + (At(b.maxInitial, ev.s) - w.initial)
                  + At(b.skipped, ev.s) - At(b.tails, ev.s) - At(b.pages, ev.s))
  {
    PeerStreamWindowIs(evs, ev.s);
    UngrantedCounts(evs, ev);
    hide Run, PeerStreamWindow;
  }

  // ----- a run beyond the bound -----

  /** A program's output takes the whole connection window and ends with five carried bytes: 65540 DATA
      bytes are on the wire and no credit was received. */
  const OVERRUN: seq<Event> := [
    NewStream(1), Start(1), Get(1), Ready(1, false, 65535, 65535), Write(1), Update(1), Exit(1), Ending(1, 5)]

  const FULL: map<nat, int> := map[0 := 65535, 1 := 65535]
  const OPENED: Sys := INIT.(w := INIT.w.(wnd := FULL), book := INIT.book.(maxInitial := map[1 := 65535]))
  const STARTED: Sys := OPENED.(senders := map[1 := AtLoop])
  const HELD: Windows := Windows(FULL, 65535, map[1 := 65535], 65535)
  const GRANTED: Sys := STARTED.(w := HELD, senders := map[1 := Granted(65535)])
  const TRIMMED: Sys := GRANTED.(senders := map[1 := Sending(65535, false)])
  const WRITTEN: Sys := TRIMMED.(senders := map[1 := Sending(65535, true)],
    book := OPENED.book.(written := map[1 := 65535]))
  const CHARGED: Sys := Sys(
    Windows(map[0 := 0, 1 := 0], 0, map[], 65535), map[1 := AtLoop],
    OPENED.book.(written := map[1 := 65535], charged := map[1 := 65535]))
  const LEFT: Sys := CHARGED.(senders := map[1 := Exited])

  lemma FirstSteps()
    ensures Step(INIT, NewStream(1)) == OPENED && Step(OPENED, Start(1)) == STARTED && Step(STARTED, Get(1)) == GRANTED
  {
    assert INIT.w.wnd[1 := 65535] == FULL;
  }

  lemma MiddleSteps()
    ensures Step(GRANTED, Ready(1, false, 65535, 65535)) == TRIMMED && Step(TRIMMED, Write(1)) == WRITTEN
  {
    assert HELD.reserved - {1} == map[] && HELD.reserved - {1} == map[];
  }

  lemma LastSteps()
    ensures Step(WRITTEN, Update(1)) == CHARGED && Step(CHARGED, Exit(1)) == LEFT
  {
    assert HELD.reserved - {1} == map[];
  }

  lemma OneMore(evs: seq<Event>, ev: Event, sys: Sys, sys': Sys)
    requires Run(INIT, evs) == sys && Step(sys, ev) == sys'
    ensures Run(INIT, evs + [ev]) == sys'
  {
    RunSnoc(evs, ev);
  }

  lemma OverrunIs()
    ensures OVERRUN == [] + [NewStream(1)] + [Start(1)] + [Get(1)] + [Ready(1, false, 65535, 65535)] + [Write(1)]
                       + [Update(1)] + [Exit(1)] + [Ending(1, 5)]
  {
  }

  lemma OverrunEnds()
    ensures Run(INIT, OVERRUN) == Step(LEFT, Ending(1, 5))
  {
    FirstSteps();
    MiddleSteps();
    LastSteps();
    OverrunIs();
    assert Run(INIT, []) == INIT;
    hide *;
    var r1 := [] + [NewStream(1)];
    OneMore([], NewStream(1), INIT, OPENED);
    OneMore(r1, Start(1), OPENED, STARTED);
    var r3 := r1 + [Start(1)] + [Get(1)];
    OneMore(r1 + [Start(1)], Get(1), STARTED, GRANTED);
    OneMore(r3, Ready(1, false, 65535, 65535), GRANTED, TRIMMED);
    var r5 := r3 + [Ready(1, false, 65535, 65535)] + [Write(1)];
    OneMore(r3 + [Ready(1, false, 65535, 65535)], Write(1), TRIMMED, WRITTEN);
    OneMore(r5, Update(1), WRITTEN, CHARGED);
    OneMore(r5 + [Update(1)], Exit(1), CHARGED, LEFT);
    OneMore(r5 + [Update(1)] + [Exit(1)], Ending(1, 5), LEFT, Step(LEFT, Ending(1, 5)));
  }

  lemma BoundIsPassed()
    ensures var b := Run(INIT, OVERRUN).book;
            AllData(b) == 65540 > DEFAULT_WINDOW + At(b.credit, 0) && At(b.credit, 0) == 0
    ensures PeerWindow(Run(INIT, OVERRUN)) == -5
  {
    OverrunEnds();
    hide Run, OVERRUN;
    SumUpdate(map[], 1, 65535);
    assert Sum(map[]) == 0 && map[][1 := 65535] == map[1 := 65535];
  }
}
