/** Connection and stream send windows with reservations.

Every HTTP/2 response runs in its own thread.  All threads of a connection share the stream
windows and a reservation map whose key 0 holds the total.  The functions below are the bodies of
the critical sections; `Step` interleaves them with the frames that move the windows from outside.
*/
module FlowControl {
  import opened Basics

  const MAX_WINDOW: int := 0x7fff_ffff
  const DEFAULT_WINDOW: int := 65535
  const TWO_32: int := 0x1_0000_0000
  const TWO_64: int := 0x1_0000_0000_0000_0000

  // ----- machine integers -----

  function Unsigned64(x: int): int { x % TWO_64 }

  function Signed64(x: int): int {
    var u := x % TWO_64;
    if u < TWO_64 / 2 then u else u - TWO_64
  }

  function Unsigned32(x: int): int { x % TWO_32 }

  function Signed32(x: int): int {
    var u := x % TWO_32;
    if u < TWO_32 / 2 then u else u - TWO_32
  }

  function Min(x: int, y: int): int { if x <= y then x else y }

  // ----- sums over maps -----

  function At(m: map<nat, int>, k: nat): int { if k in m then m[k] else 0 }

  ghost function Sum(m: map<nat, int>): int {
    if m == map[] then 0 else
      var k :| k in m;
      m[k] + Sum(m - {k})
  }

  lemma {:induction false} SumRemove(m: map<nat, int>, k: nat)
    ensures Sum(m) == At(m, k) + Sum(m - {k})
    decreases |m|
  {
    if k !in m {
      assert m - {k} == m;
    } else {
      var j :| j in m && Sum(m) == m[j] + Sum(m - {j});
      if j != k {
        SumRemove(m - {j}, k);
        SumRemove(m - {k}, j);
        assert m - {j} - {k} == m - {k} - {j};
      }
    }
  }

  lemma SumUpdate(m: map<nat, int>, k: nat, v: int)
    ensures Sum(m[k := v]) == Sum(m) - At(m, k) + v
  {
    SumRemove(m, k);
    SumRemove(m[k := v], k);
    assert m[k := v] - {k} == m - {k};
  }

  lemma Smaller(m: map<nat, int>, k: nat)
    ensures |m - {k}| == |m| - (if k in m then 1 else 0)
  {
    assert (m - {k}).Keys == m.Keys - {k};
  }

  ghost predicate Bounded(a: map<nat, int>, b: map<nat, int>, c: map<nat, int>) {
    forall k: nat :: At(a, k) <= At(b, k) + At(c, k)
  }

  lemma BoundedRemove(a: map<nat, int>, b: map<nat, int>, c: map<nat, int>, k: nat)
    requires Bounded(a, b, c)
    ensures Bounded(a - {k}, b - {k}, c - {k}) && At(a, k) <= At(b, k) + At(c, k)
  {
    forall j: nat ensures At(a - {k}, j) <= At(b - {k}, j) + At(c - {k}, j) {
      assert At(a, j) <= At(b, j) + At(c, j);
    }
  }

  lemma {:induction false} SumMonotone(a: map<nat, int>, b: map<nat, int>, c: map<nat, int>)
    requires Bounded(a, b, c)
    ensures Sum(a) <= Sum(b) + Sum(c)
    decreases |a| + |b| + |c|
  {
    if a != map[] || b != map[] || c != map[] {
      var k :| k in a || k in b || k in c;
      hide *;
      Smaller(a, k);
      Smaller(b, k);
      Smaller(c, k);
      SumRemove(a, k);
      SumRemove(b, k);
      SumRemove(c, k);
      BoundedRemove(a, b, c, k);
      SumMonotone(a - {k}, b - {k}, c - {k});
    }
  }

  // ----- the shared state and its critical sections -----

  /** `wnd` holds the window of every stream in the table (0 is the connection), `total` is the
      entry 0 of the reservation map, `reserved` its other entries. */
  datatype Windows = Windows(wnd: map<nat, int>, total: int, reserved: map<nat, int>, initial: int)

  function Release(w: Windows, s: nat): Windows {
    if s in w.reserved then
      w.(total := Unsigned64(w.total - w.reserved[s]), reserved := w.reserved - {s})
    else w
  }

  function Reserve(w: Windows, s: nat, n: int): Windows {
    if n > 0 then w.(total := Unsigned64(w.total + n), reserved := w.reserved[s := n]) else w
  }

  /** fnGetStreamWindowSize: None when an entry is missing, otherwise the granted window. */
  function GetWindow(w: Windows, s: nat): (Windows, Option<int>) {
    var r := Release(w, s);
    if s !in r.wnd || 0 !in r.wnd then (r, None)
    else
      var g := Min(r.wnd[s], Signed64(r.wnd[0] - r.total));
      (Reserve(r, s, g), Some(g))
  }

  /** fnSendQueueReady: trims the grant to what is sent; None means "not now". */
  function QueueReady(w: Windows, s: nat, grant: int, queueFull: bool, bufSize: nat, rest: nat)
      : (Windows, Option<nat>)
  {
    var go := !(queueFull || grant <= 0);
    var n := if go then Min(Min(bufSize, rest), grant) else 0;
    (Reserve(Release(w, s), s, n), if go then Some(n) else None)
  }

  /** fnUpdateStreamParam: charges the bytes sent to the stream and to the connection. */
  function Charge(w: Windows, s: nat, n: nat): (Windows, bool) {
    var r := Release(w, s);
    if s !in r.wnd then (r, false)
    else
      var r1 := r.(wnd := r.wnd[s := r.wnd[s] - Unsigned32(n)]);
      if 0 !in r1.wnd then (r1, false)
      else (r1.(wnd := r1.wnd[0 := r1.wnd[0] - Unsigned32(n)]), true)
  }

  /** SETTINGS_INITIAL_WINDOW_SIZE: None when the value is refused. */
  function SetInitial(w: Windows, v: nat): Option<Windows> {
    if v < MAX_WINDOW then
      var delta := Signed32(Unsigned64(v - w.initial));
      Some(w.(initial := v, wnd := map s | s in w.wnd :: if s != 0 then w.wnd[s] + delta else w.wnd[s]))
    else None
  }

  /** WINDOW_UPDATE with the 31-bit increment `v`: None when the frame is refused. */
  function AddCredit(w: Windows, s: nat, v: nat): Option<Windows> {
    if s in w.wnd && 1 <= v <= MAX_WINDOW && w.wnd[s] + v <= MAX_WINDOW then
      Some(w.(wnd := w.wnd[s := w.wnd[s] + v]))
    else None
  }

  function OpenStream(w: Windows, s: nat): Option<Windows> {
    if s in w.wnd then None else Some(w.(wnd := w.wnd[s := w.initial]))
  }

  // ----- the interleaved system -----

  /** Where a sender stands in its loop, with the locals it carries between critical sections. */
  datatype Sender =
    | AtLoop
    | Granted(wnd: int)
    | Sending(n: nat, written: bool)
    | Leaving
    | Exited

  /** Book-keeping no code path reads: credit received (for the connection under key 0), bytes charged,
      bytes written on a grant, bytes charged without being written, and the largest initial size in
      force, per stream.  `tails` and `pages` are the DATA bytes written without a grant at the end of
      program output and as error pages, `endings` counts the former; key 0 holds their totals. */
  datatype Ledger = Ledger(
    credit: map<nat, int>, charged: map<nat, int>, written: map<nat, int>,
    skipped: map<nat, int>, maxInitial: map<nat, int>,
    tails: map<nat, int>, endings: map<nat, int>, pages: map<nat, int>)

  datatype Sys = Sys(w: Windows, senders: map<nat, Sender>, book: Ledger)

  datatype Event =
    | Start(s: nat)
    | Get(s: nat)
    | Ready(s: nat, queueFull: bool, bufSize: nat, rest: nat)
    | Write(s: nat)
    | Update(s: nat)
    | Exit(s: nat)
    | NewStream(s: nat)
    | Settings(v: nat)
    | WindowUpdate(s: nat, v: nat)
    | Ending(s: nat, n: nat)  // fnAfterCgi: the carried bytes, at most ten, in a DATA frame of their own
    | Page(s: nat, n: nat)    // an error page in one DATA frame

  const INIT: Sys :=
    Sys(Windows(map[0 := DEFAULT_WINDOW], 0, map[], DEFAULT_WINDOW), map[],
        Ledger(map[], map[], map[], map[], map[], map[], map[], map[]))

  const CARRY: nat := 10

  /** The action of the stream writes outside a send loop. */
  predicate OutsideLoop(sys: Sys, s: nat) {
    s != 0 && s in sys.w.wnd && (s !in sys.senders || sys.senders[s].Exited?)
  }

  function Add(m: map<nat, int>, k: nat, d: int): map<nat, int> { m[k := At(m, k) + d] }

  function Both(m: map<nat, int>, s: nat, d: int): map<nat, int> { Add(Add(m, s, d), 0, d) }

  function RaiseAll(m: map<nat, int>, v: int): map<nat, int> {
    map s | s in m :: if m[s] < v then v else m[s]
  }

  /** One atomic step; an event that is not enabled leaves the system as it is. */
  function Step(sys: Sys, ev: Event): Sys {
    var (w, snd, b) := (sys.w, sys.senders, sys.book);
    match ev
    case Start(s) =>
      if s != 0 && s in w.wnd && (s !in snd || snd[s].Exited?) then sys.(senders := snd[s := AtLoop]) else sys
    case Get(s) =>
      if s in snd && snd[s].AtLoop? then
        var (w1, g) := GetWindow(w, s);
        sys.(w := w1, senders := snd[s := if g.Some? then Granted(g.value) else Leaving])
      else sys
    case Ready(s, full, bufSize, rest) =>
      if s in snd && snd[s].Granted? then
        var (w1, n) := QueueReady(w, s, snd[s].wnd, full, bufSize, rest);
        sys.(w := w1, senders := snd[s := if n.Some? then Sending(n.value, false) else AtLoop])
      else sys
    case Write(s) =>
      if s in snd && snd[s].Sending? && !snd[s].written then
        sys.(senders := snd[s := snd[s].(written := true)],
             book := b.(written := Add(b.written, s, snd[s].n)))
      else sys
    case Update(s) =>
      if s in snd && snd[s].Sending? then
        var n := snd[s].n;
        var (w1, ok) := Charge(w, s, n);
        sys.(w := w1, senders := snd[s := if ok then AtLoop else Leaving],
             book := b.(charged := Add(b.charged, s, n),
                        skipped := if snd[s].written then b.skipped else Add(b.skipped, s, n)))
      else sys
    case Exit(s) =>
      if s in snd && (snd[s].AtLoop? || snd[s].Leaving?) then
        sys.(w := Release(w, s), senders := snd[s := Exited])
      else sys
    case NewStream(s) =>
      var o := OpenStream(w, s);
      if o.Some? then sys.(w := o.value, book := b.(maxInitial := b.maxInitial[s := w.initial])) else sys
    case Settings(v) =>
      var o := SetInitial(w, v);
      if o.Some? then sys.(w := o.value, book := b.(maxInitial := RaiseAll(b.maxInitial, v))) else sys
    case WindowUpdate(s, v) =>
      var o := AddCredit(w, s, v);
      if o.Some? then sys.(w := o.value, book := b.(credit := Add(b.credit, s, v))) else sys
    case Ending(s, n) =>
      if OutsideLoop(sys, s) && n <= CARRY then
        sys.(book := b.(tails := Both(b.tails, s, n), endings := Both(b.endings, s, 1)))
      else sys
    case Page(s, n) =>
      if OutsideLoop(sys, s) then sys.(book := b.(pages := Both(b.pages, s, n))) else sys
  }

  function Run(sys: Sys, evs: seq<Event>): Sys
    decreases |evs|
  {
    if evs == [] then sys else Step(Run(sys, evs[..|evs| - 1]), evs[|evs| - 1])
  }

  lemma RunSnoc(evs: seq<Event>, ev: Event)
    ensures Run(INIT, evs + [ev]) == Step(Run(INIT, evs), ev)
  {
    assert (evs + [ev])[..|evs + [ev]| - 1] == evs;
  }

  // ----- the invariant -----

  /** The reservation map: entry 0 is the sum of the others and fits in the connection window. */
  ghost predicate ReservationsInv(w: Windows) {
    && 0 in w.wnd && 0 !in w.reserved
    && 0 <= w.initial < MAX_WINDOW
    && (forall s :: s in w.reserved ==> s in w.wnd && w.reserved[s] > 0)
    && w.total == Sum(w.reserved)
    && 0 <= w.total <= w.wnd[0] <= MAX_WINDOW
  }

  /** What a sender's local variables say about its entry in the reservation map. */
  ghost predicate Holds(w: Windows, s: nat, n: int) {
    if n > 0 then s in w.reserved && w.reserved[s] == n else s !in w.reserved
  }

  function HeldBy(snd: Sender): int {
    match snd case Granted(g) => g case Sending(n, _) => n case _ => 0
  }

  /** Bytes on the wire that the windows do not show yet. */
  function InFlight(senders: map<nat, Sender>, s: nat): int {
    if s in senders && senders[s].Sending? && senders[s].written then senders[s].n else 0
  }

  /** Everything the invariant says about one stream (or, for the entry 0, about the connection). */
  ghost predicate StreamInv(sys: Sys, s: nat) {
    var (w, b) := (sys.w, sys.book);
    && (s in w.reserved ==> s in sys.senders)
    && (s in sys.senders ==> s != 0 && s in w.wnd && Holds(w, s, HeldBy(sys.senders[s])))
    && (s in b.charged || s in b.written ==> s in sys.senders)
    && (s in b.credit ==> s in w.wnd)
    && (s in w.wnd && s != 0 ==>
          && w.wnd[s] == w.initial + At(b.credit, s) - At(b.charged, s)
          && w.wnd[s] <= w.initial + MAX_WINDOW
          && s in b.maxInitial && w.initial <= b.maxInitial[s] < MAX_WINDOW
          && At(b.charged, s) + At(w.reserved, s) <= At(b.credit, s) + b.maxInitial[s])
    && At(b.written, s) <= At(b.charged, s) + InFlight(sys.senders, s)
  }

  ghost predicate Inv(sys: Sys) {
    && ReservationsInv(sys.w)
    && sys.w.wnd[0] == DEFAULT_WINDOW + At(sys.book.credit, 0) - Sum(sys.book.charged)
    && forall s: nat :: StreamInv(sys, s)
  }

  ghost predicate SameEntry<V(!new)>(m: map<nat, V>, m': map<nat, V>, s: nat) {
    (s in m <==> s in m') && (s in m ==> m[s] == m'[s])
  }

  /** A step that touches nothing of stream `t` keeps what is known about it. */
  lemma StreamFrame(sys: Sys, sys': Sys, t: nat)
    requires StreamInv(sys, t) && sys'.w.initial == sys.w.initial
    requires SameEntry(sys.w.reserved, sys'.w.reserved, t) && SameEntry(sys.senders, sys'.senders, t)
    requires (t in sys.w.wnd <==> t in sys'.w.wnd) && (t in sys.w.wnd && t != 0 ==> sys.w.wnd[t] == sys'.w.wnd[t])
    requires SameEntry(sys.book.credit, sys'.book.credit, t) && SameEntry(sys.book.charged, sys'.book.charged, t)
    requires SameEntry(sys.book.written, sys'.book.written, t)
             && SameEntry(sys.book.maxInitial, sys'.book.maxInitial, t)
    ensures StreamInv(sys', t)
  {}

  // ----- critical sections on a consistent state -----

  lemma ReleaseKeeps(w: Windows, s: nat)
    requires ReservationsInv(w)
    ensures var r := Release(w, s);
            && ReservationsInv(r) && s !in r.reserved && r.wnd == w.wnd && r.initial == w.initial
            && r.total == w.total - At(w.reserved, s)
            && r.reserved == w.reserved - {s}
  {
    SumRemove(w.reserved, s);
    if s in w.reserved {
      SumNonNegative(w.reserved - {s});
    }
  }

  lemma {:induction false} SumNonNegative(m: map<nat, int>)
    requires forall k :: k in m ==> m[k] >= 0
    ensures Sum(m) >= 0
    decreases |m|
  {
    if m != map[] {
      var k :| k in m;
      SumRemove(m, k);
      SumNonNegative(m - {k});
    }
  }

  lemma ReserveKeeps(w: Windows, s: nat, n: int)
    requires ReservationsInv(w) && s != 0 && s in w.wnd && s !in w.reserved
    requires n <= w.wnd[0] - w.total
    ensures var r := Reserve(w, s, n);
            && ReservationsInv(r) && Holds(r, s, n) && r.wnd == w.wnd && r.initial == w.initial
            && r.total == w.total + (if n > 0 then n else 0)
            && r.reserved - {s} == w.reserved
  {
    if n > 0 {
      SumUpdate(w.reserved, s, n);
    }
    assert Reserve(w, s, n).reserved - {s} == w.reserved;
  }

  /** The grant is exactly the smaller of the stream window and what the other senders leave of the
      connection window; no unsigned subtraction wraps on the way. */
  lemma GrantIsExact(w: Windows, s: nat)
    requires ReservationsInv(w) && s != 0 && s in w.wnd
    ensures var (r, g) := GetWindow(w, s);
            && g == Some(Min(w.wnd[s], w.wnd[0] - Sum(w.reserved - {s})))
            && ReservationsInv(r) && Holds(r, s, g.value) && r.wnd == w.wnd && r.initial == w.initial
            && r.reserved - {s} == w.reserved - {s}
  {
    hide Sum;
    ReleaseKeeps(w, s);
    var r := Release(w, s);
    ReserveKeeps(r, s, Min(r.wnd[s], r.wnd[0] - r.total));
  }

  /** Trimming never reserves more than the grant, so it cannot fail for lack of window. */
  lemma TrimIsExact(w: Windows, s: nat, grant: int, full: bool, bufSize: nat, rest: nat)
    requires ReservationsInv(w) && s != 0 && s in w.wnd && Holds(w, s, grant)
    ensures var (r, n) := QueueReady(w, s, grant, full, bufSize, rest);
            && ReservationsInv(r) && r.wnd == w.wnd && r.initial == w.initial
            && Holds(r, s, if n.Some? then n.value else 0)
            && (n.Some? <==> !full && grant > 0)
            && (n.Some? ==> n.value <= bufSize && n.value <= rest && n.value <= grant
                            && (n.value == bufSize || n.value == rest || n.value == grant))
            && r.reserved - {s} == w.reserved - {s}
  {
    ReleaseKeeps(w, s);
    var (r, n) := QueueReady(w, s, grant, full, bufSize, rest);
    ReserveKeeps(Release(w, s), s, if n.Some? then n.value else 0);
  }

  lemma ChargeIsExact(w: Windows, s: nat, n: nat)
    requires ReservationsInv(w) && s != 0 && s in w.wnd && Holds(w, s, n)
    ensures var (r, ok) := Charge(w, s, n);
            && ok && ReservationsInv(r) && s !in r.reserved && r.initial == w.initial
            && r.wnd == w.wnd[s := w.wnd[s] - n][0 := w.wnd[0] - n]
            && r.reserved == w.reserved - {s}
  {
    ReleaseKeeps(w, s);
    SumRemove(w.reserved, s);
  }

  // ----- every step keeps the invariant -----

  /** Elsewhere a sender's step changes nothing. */
  lemma StreamsElsewhere(sys: Sys, sys': Sys, s: nat)
    requires forall t: nat :: StreamInv(sys, t)
    requires StreamInv(sys', s) && sys'.book == sys.book && sys'.w.wnd == sys.w.wnd && sys'.w.initial == sys.w.initial
    requires sys'.w.reserved - {s} == sys.w.reserved - {s}
    requires s in sys'.senders && sys'.senders == sys.senders[s := sys'.senders[s]]
    ensures forall t: nat :: StreamInv(sys', t)
  {
    forall t: nat ensures StreamInv(sys', t) {
      assert StreamInv(sys, t);
      if t != s {
        Elsewhere(sys.w.reserved, sys'.w.reserved, s, t);
        StreamFrame(sys, sys', t);
      }
    }
  }

  lemma Elsewhere(m: map<nat, int>, m': map<nat, int>, s: nat, t: nat)
    requires m - {s} == m' - {s} && t != s
    ensures SameEntry(m, m', t)
  {
    assert t in m <==> t in m - {s};
    assert t in m' <==> t in m' - {s};
    assert t in m - {s} ==> m[t] == (m - {s})[t] && m'[t] == (m' - {s})[t];
  }

  lemma GetKeeps(sys: Sys, s: nat)
    requires Inv(sys)
    ensures Inv(Step(sys, Get(s)))
  {
    var sys' := Step(sys, Get(s));
    hide Sum;
    if sys' == sys { return; }
    assert StreamInv(sys, s);
    GrantIsExact(sys.w, s);
    assert StreamInv(sys', s);
    hide GetWindow, StreamInv;
    StreamsElsewhere(sys, sys', s);
  }

  lemma ReadyKeeps(sys: Sys, s: nat, full: bool, bufSize: nat, rest: nat)
    requires Inv(sys)
    ensures Inv(Step(sys, Ready(s, full, bufSize, rest)))
  {
    var sys' := Step(sys, Ready(s, full, bufSize, rest));
    hide Sum;
    if sys' == sys { return; }
    assert StreamInv(sys, s);
    TrimIsExact(sys.w, s, sys.senders[s].wnd, full, bufSize, rest);
    assert StreamInv(sys', s);
    hide QueueReady, StreamInv;
    StreamsElsewhere(sys, sys', s);
  }

  lemma SenderStepKeeps(sys: Sys, ev: Event)
    requires Inv(sys) && (ev.Start? || ev.Get? || ev.Ready? || ev.Write? || ev.Exit?)
    ensures Inv(Step(sys, ev))
  {
    hide Inv, Step;
    match ev
    case Get(s) => GetKeeps(sys, s);
    case Ready(s, full, bufSize, rest) => ReadyKeeps(sys, s, full, bufSize, rest);
    case _ => QuietKeeps(sys, ev);
  }

  lemma QuietKeeps(sys: Sys, ev: Event)
    requires Inv(sys) && (ev.Start? || ev.Write? || ev.Exit?)
    ensures Inv(Step(sys, ev))
  {
    var (w, s, sys') := (sys.w, ev.s, Step(sys, ev));
    hide Sum;
    if sys' == sys { return; }
    assert StreamInv(sys, s);
    forall t: nat ensures StreamInv(sys', t) {
      assert StreamInv(sys, t);
      if t != s {
        assert SameEntry(w.reserved - {s}, sys'.w.reserved - {s}, t);
        StreamFrame(sys, sys', t);
      }
    }
  }

  lemma UpdateKeeps(sys: Sys, s: nat)
    requires Inv(sys) && s in sys.senders && sys.senders[s].Sending?
    ensures Inv(Step(sys, Update(s)))
  {
    var (n, sys') := (sys.senders[s].n, Step(sys, Update(s)));
    assert StreamInv(sys, s);
    ChargeIsExact(sys.w, s, n);
    SumUpdate(sys.book.charged, s, At(sys.book.charged, s) + n);
    hide Sum, Charge;
    assert StreamInv(sys', s);
    hide StreamInv, ReservationsInv;
    forall t: nat ensures StreamInv(sys', t) {
      assert StreamInv(sys, t);
      if t != s { UpdateElsewhere(sys, s, t); }
    }
  }

  lemma UpdateElsewhere(sys: Sys, s: nat, t: nat)
    requires StreamInv(sys, t) && s in sys.senders && sys.senders[s].Sending? && t != s && s != 0
    requires s in sys.w.wnd && 0 in sys.w.wnd
    ensures StreamInv(Step(sys, Update(s)), t)
  {
    hide Unsigned64;
    StreamFrame(sys, Step(sys, Update(s)), t);
  }

  lemma DeltaIsExact(d: int)
    requires -TWO_32 / 2 <= d < TWO_32 / 2
    ensures Signed32(Unsigned64(d)) == d
  {
  }

  lemma SettingsKeeps(sys: Sys, v: nat)
    requires Inv(sys) && v < MAX_WINDOW
    ensures Inv(Step(sys, Settings(v)))
  {
    var sys' := Step(sys, Settings(v));
    DeltaIsExact(v - sys.w.initial);
    hide Sum, Signed32, Unsigned64;
    assert sys'.w.reserved == sys.w.reserved && sys'.w.total == sys.w.total && sys'.senders == sys.senders;
    hide Step, SetInitial;
    forall t: nat ensures StreamInv(sys', t) {
      assert StreamInv(sys, t);
    }
  }

  lemma ReceiverStepKeeps(sys: Sys, ev: Event)
    requires Inv(sys) && (ev.NewStream? || ev.WindowUpdate?)
    ensures Inv(Step(sys, ev))
  {
    var sys' := Step(sys, ev);
    hide Sum;
    assert sys'.senders == sys.senders && sys'.w.reserved == sys.w.reserved && sys'.w.total == sys.w.total;
    forall t: nat ensures StreamInv(sys', t) {
      assert StreamInv(sys, t);
      if t != ev.s { ReceivedElsewhere(sys, ev, t); }
    }
  }

  lemma ReceivedElsewhere(sys: Sys, ev: Event, t: nat)
    requires StreamInv(sys, t) && (ev.NewStream? || ev.WindowUpdate?) && t != ev.s
    ensures StreamInv(Step(sys, ev), t)
  {
    StreamFrame(sys, Step(sys, ev), t);
    hide StreamInv;
  }

  /** A write without a grant touches no window and no reservation. */
  lemma UngrantedKeeps(sys: Sys, ev: Event)
    requires Inv(sys) && (ev.Ending? || ev.Page?)
    ensures Inv(Step(sys, ev)) && Step(sys, ev).w == sys.w && Step(sys, ev).senders == sys.senders
  {
    var sys' := Step(sys, ev);
    forall t: nat ensures StreamInv(sys', t) { assert StreamInv(sys, t); }
  }

  lemma StepKeepsInv(sys: Sys, ev: Event)
    requires Inv(sys)
    ensures Inv(Step(sys, ev))
  {
    if Step(sys, ev) == sys { return; }
    match ev
    case Update(s) => UpdateKeeps(sys, s);
    case Settings(v) => SettingsKeeps(sys, v);
    case NewStream(_) => ReceiverStepKeeps(sys, ev);
    case WindowUpdate(_, _) => ReceiverStepKeeps(sys, ev);
    case Ending(_, _) => UngrantedKeeps(sys, ev);
    case Page(_, _) => UngrantedKeeps(sys, ev);
    case _ => SenderStepKeeps(sys, ev);
  }

  lemma {:induction false} RunKeepsInv(evs: seq<Event>)
    ensures Inv(Run(INIT, evs))
    decreases |evs|
  {
    if evs != [] {
      RunKeepsInv(evs[..|evs| - 1]);
      StepKeepsInv(Run(INIT, evs[..|evs| - 1]), evs[|evs| - 1]);
    }
  }

  // ----- main results, over every run -----

  /** Connection safety: in every reachable state the total reservation is the sum of the per-stream
      ones and lies within the connection window; the DATA bytes written on grants fit in the initial
      window plus the connection credit received.  `UngrantedData` counts the others. */
  lemma ConnectionWindowSafety(evs: seq<Event>)
    ensures var sys := Run(INIT, evs);
            && 0 in sys.w.wnd && sys.w.total == Sum(sys.w.reserved)
            && 0 <= sys.w.total <= sys.w.wnd[0] <= MAX_WINDOW
            && Sum(sys.book.written) <= DEFAULT_WINDOW + At(sys.book.credit, 0)
  {
    RunKeepsInv(evs);
    var sys := Run(INIT, evs);
    forall s: nat ensures At(sys.book.written, s) <= At(sys.book.charged, s) + At(sys.w.reserved, s) {
      assert StreamInv(sys, s);
    }
    SumMonotone(sys.book.written, sys.book.charged, sys.w.reserved);
  }

  /** Conservation per stream and for the connection, with the bounds that follow. */
  lemma WindowConservation(evs: seq<Event>, s: nat)
    requires s in Run(INIT, evs).w.wnd
    ensures var Sys(w, _, b) := Run(INIT, evs);
            && (s == 0 ==> w.wnd[0] == DEFAULT_WINDOW + At(b.credit, 0) - Sum(b.charged))
            && (s != 0 ==> w.wnd[s] == w.initial + At(b.credit, s) - At(b.charged, s))
            && (s != 0 ==> -MAX_WINDOW < w.wnd[s] <= TWO_32 - 3)
            && (s != 0 ==>
                  && s in b.maxInitial
                  && At(b.charged, s) + At(w.reserved, s) <= At(b.credit, s) + b.maxInitial[s])
            && (s != 0 ==> At(b.written, s) <= At(b.credit, s) + b.maxInitial[s])
  {
    RunKeepsInv(evs);
    assert StreamInv(Run(INIT, evs), s);
  }

  /** A sender that left its loop, or waits at its head, holds nothing; when all do, nothing is reserved. */
  lemma NoReservationSurvives(evs: seq<Event>)
    ensures var Sys(w, senders, _) := Run(INIT, evs);
            && (forall s :: s in w.reserved ==> s in senders && (senders[s].Granted? || senders[s].Sending?))
            && ((forall s :: s in senders ==> !senders[s].Granted? && !senders[s].Sending?) ==> w.total == 0)
  {
    RunKeepsInv(evs);
    var sys := Run(INIT, evs);
    forall s | s in sys.w.reserved ensures s in sys.senders && (sys.senders[s].Granted? || sys.senders[s].Sending?) {
      assert StreamInv(sys, s);
    }
    if forall s :: s in sys.senders ==> !sys.senders[s].Granted? && !sys.senders[s].Sending? {
      assert sys.w.reserved == map[];
    }
  }

  /** The grant is the largest the invariant allows: a sender alone with an idle connection is never
      refused window that both windows still have. */
  lemma GrantInEveryRun(evs: seq<Event>, s: nat)
    requires var sys := Run(INIT, evs); s in sys.senders && sys.senders[s].AtLoop?
    ensures var (sys, sys') := (Run(INIT, evs), Run(INIT, evs + [Get(s)]));
            && {0, s} <= sys.w.wnd.Keys && s in sys'.senders
            && sys'.senders[s] == Granted(Min(sys.w.wnd[s], sys.w.wnd[0] - sys.w.total))
  {
    RunKeepsInv(evs);
    var sys := Run(INIT, evs);
    assert StreamInv(sys, s);
    GrantIsExact(sys.w, s);
    assert sys.w.reserved - {s} == sys.w.reserved;
    RunSnoc(evs, Get(s));
  }

  // ----- where the windows leave section 6.9 of RFC 7540 -----

  lemma ShiftsAll(sys: Sys, v: nat)
    requires v < MAX_WINDOW && 0 <= sys.w.initial < MAX_WINDOW
    ensures var w := Step(sys, Settings(v)).w;
            && w.initial == v && w.wnd.Keys == sys.w.wnd.Keys
            && (forall s :: s in w.wnd && s != 0 ==> w.wnd[s] == sys.w.wnd[s] + v - sys.w.initial)
            && (0 in w.wnd ==> w.wnd[0] == sys.w.wnd[0])
  {
    DeltaIsExact(v - sys.w.initial);
    assert Step(sys, Settings(v)).w == SetInitial(sys.w, v).value by { hide Signed32, Unsigned64; }
    hide Signed32, Unsigned64, Step;
  }

  /** A new initial size is added to every stream window unchecked.  All of them stay at or below
      2^31 - 1 exactly when the shift leaves the largest one there; section 6.9.2 asks for a
      connection error otherwise. */
  lemma SettingsStaysInRange(evs: seq<Event>, v: nat)
    requires v < MAX_WINDOW
    ensures var (w, w') := (Run(INIT, evs).w, Run(INIT, evs + [Settings(v)]).w);
            (forall s :: s in w'.wnd ==> w'.wnd[s] <= MAX_WINDOW)
            <==> (forall s :: s in w.wnd && s != 0 ==> w.wnd[s] <= MAX_WINDOW - (v - w.initial))
  {
    RunKeepsInv(evs);
    var (w, w') := (Run(INIT, evs).w, Run(INIT, evs + [Settings(v)]).w);
    RunSnoc(evs, Settings(v));
    ShiftsAll(Run(INIT, evs), v);
    hide Run, Sum, Step;
  }

  lemma FourSteps(e1: Event, e2: Event, e3: Event, e4: Event)
    ensures Run(INIT, [e1, e2, e3, e4]) == Step(Step(Step(Step(INIT, e1), e2), e3), e4)
  {
    assert Run(INIT, []) == INIT;
    hide Run, Step;
    RunSnoc([], e1);
    RunSnoc([e1], e2);
    RunSnoc([e1, e2], e3);
    RunSnoc([e1, e2, e3], e4);
    assert [] + [e1] == [e1] && [e1] + [e2] == [e1, e2] && [e1, e2] + [e3] == [e1, e2, e3];
    assert [e1, e2, e3] + [e4] == [e1, e2, e3, e4];
  }

  lemma OpensAt(sys: Sys, s: nat)
    requires s !in sys.w.wnd
    ensures var w := Step(sys, NewStream(s)).w; w.initial == sys.w.initial && s in w.wnd && w.wnd[s] == w.initial
  {
  }

  lemma Credits(sys: Sys, s: nat, v: nat)
    requires s in sys.w.wnd && 1 <= v && sys.w.wnd[s] + v <= MAX_WINDOW && v <= MAX_WINDOW
    ensures var w := Step(sys, WindowUpdate(s, v)).w;
            w.initial == sys.w.initial && s in w.wnd && w.wnd[s] == sys.w.wnd[s] + v
  {
  }

  /** The bound 2^32 - 3 of `WindowConservation` is reached, so the window does leave the range. */
  lemma StreamWindowBoundIsReached()
    ensures var evs := [Settings(0), NewStream(1), WindowUpdate(1, MAX_WINDOW), Settings(MAX_WINDOW - 1)];
            var w := Run(INIT, evs).w;
            1 in w.wnd && w.wnd[1] == TWO_32 - 3
  {
    var (e1, e2, e3, e4) := (Settings(0), NewStream(1), WindowUpdate(1, MAX_WINDOW), Settings(MAX_WINDOW - 1));
    FourSteps(e1, e2, e3, e4);
    hide Run;
    hide Step, Signed32, Unsigned64;
    var s1 := Step(INIT, e1);
    ShiftsAll(INIT, 0);
    var s2 := Step(s1, e2);
    OpensAt(s1, 1);
    var s3 := Step(s2, e3);
    Credits(s2, 1, MAX_WINDOW);
    ShiftsAll(s3, MAX_WINDOW - 1);
  }

  /** One sender per stream is needed: a stream whose action is queued twice has two.  The second
      grant releases the first one's reservation, both send the whole window, and the connection
      window ends below zero. */
  lemma TwoSendersOverdraw(w: Windows, s: nat)
    requires ReservationsInv(w) && w.reserved == map[] && s != 0 && s in w.wnd && w.wnd[s] == w.wnd[0] > 0
    ensures var g := w.wnd[0];
            var (w1, g1) := GetWindow(w, s);
            var (w2, g2) := GetWindow(w1, s);
            var (w3, n1) := QueueReady(w2, s, g, false, g, g);
            var (w4, n2) := QueueReady(w3, s, g, false, g, g);
            g1 == g2 == Some(g) && n1 == n2 == Some(g as nat)
            && Charge(Charge(w4, s, g).0, s, g).0.wnd[0] == -g
  {
    var g := w.wnd[0];
    GrantIsExact(w, s);
    assert w.reserved - {s} == map[];
    var (w1, _) := GetWindow(w, s);
    GrantIsExact(w1, s);
    var (w2, _) := GetWindow(w1, s);
    TrimIsExact(w2, s, g, false, g, g);
    var (w3, _) := QueueReady(w2, s, g, false, g, g);
    TrimIsExact(w3, s, g, false, g, g);
    var (w4, _) := QueueReady(w3, s, g, false, g, g);
    ChargeIsExact(w4, s, g);
  }

  /** Charging twice what was granted once: the invariant survives exactly when both fit in what the
      connection window leaves. */
  lemma TwoChargesIff(w: Windows, s: nat, held: int, m: nat, n: nat)
    requires ReservationsInv(w) && s != 0 && s in w.wnd && Holds(w, s, held) && m < TWO_32 && n < TWO_32
    ensures var r := Charge(Charge(w, s, m).0, s, n).0;
            && r.wnd == w.wnd[s := w.wnd[s] - m - n][0 := w.wnd[0] - m - n] && r.reserved == w.reserved - {s}
            && (ReservationsInv(r) <==> m + n <= w.wnd[0] - Sum(w.reserved - {s}))
  {
    ReleaseKeeps(w, s);
    var r0 := Release(w, s);
    assert r0.reserved == w.reserved - {s} && s !in r0.reserved && r0.total == Sum(r0.reserved);
    var r := Charge(Charge(w, s, m).0, s, n).0;
    assert r.reserved == r0.reserved && r.total == r0.total;
    hide Sum, Release;
  }

  lemma TwoGrants(w: Windows, s: nat)
    requires ReservationsInv(w) && s !in w.reserved && s != 0 && s in w.wnd
    ensures var g := Min(w.wnd[s], w.wnd[0] - w.total);
            var (w1, g1) := GetWindow(w, s);
            var (w2, g2) := GetWindow(w1, s);
            && g1 == g2 == Some(g) && ReservationsInv(w2) && Holds(w2, s, g) && w2.wnd == w.wnd
            && w2.reserved - {s} == w.reserved && Sum(w.reserved) == w.total
  {
    assert w.reserved - {s} == w.reserved && Sum(w.reserved) == w.total;
    GrantIsExact(w, s);
    var (w1, g1) := GetWindow(w, s);
    hide GetWindow, Sum, Holds;
    assert ReservationsInv(w1) && w1.reserved - {s} == w.reserved && w1.wnd == w.wnd;
    GrantIsExact(w1, s);
    hide ReservationsInv;
  }

  /** Two senders of one stream, both past fnGetStreamWindowSize before either has charged: the exact
      condition under which this does no harm, known as soon as the grant is. */
  lemma TwoSendersIff(w: Windows, s: nat, buf1: nat, rest1: nat, buf2: nat, rest2: nat)
    requires ReservationsInv(w) && s !in w.reserved && s != 0 && s in w.wnd && Min(w.wnd[s], w.wnd[0] - w.total) > 0
    ensures var g := Min(w.wnd[s], w.wnd[0] - w.total);
            var (n1, n2) := (Min(Min(buf1, rest1), g), Min(Min(buf2, rest2), g));
            var (w1, g1) := GetWindow(w, s);
            var (w2, g2) := GetWindow(w1, s);
            var (w3, m1) := QueueReady(w2, s, g, false, buf1, rest1);
            var (w4, m2) := QueueReady(w3, s, g, false, buf2, rest2);
            && g1 == g2 == Some(g) && m1 == Some(n1 as nat) && m2 == Some(n2 as nat)
            && (ReservationsInv(Charge(Charge(w4, s, n1).0, s, n2).0) <==> n1 + n2 <= w.wnd[0] - w.total)
  {
    var g := Min(w.wnd[s], w.wnd[0] - w.total);
    TwoGrants(w, s);
    var w2 := GetWindow(GetWindow(w, s).0, s).0;
    hide Sum, GetWindow;
    TrimIsExact(w2, s, g, false, buf1, rest1);
    var (n1, n2) := (Min(Min(buf1, rest1), g), Min(Min(buf2, rest2), g));
    var w3 := QueueReady(w2, s, g, false, buf1, rest1).0;
    assert QueueReady(w2, s, g, false, buf1, rest1).1 == Some(n1);
    SecondTrim(w3, s, n1, g, buf2, rest2);
    var w4 := QueueReady(w3, s, g, false, buf2, rest2).0;
    hide QueueReady, Charge;
    TwoChargesIff(w4, s, n2, n1, n2);
  }

  lemma SecondTrim(w: Windows, s: nat, held: int, g: int, buf: nat, rest: nat)
    requires ReservationsInv(w) && s != 0 && s in w.wnd && Holds(w, s, held)
             && 0 < g <= w.wnd[0] - Sum(w.reserved - {s})
    ensures var (r, n) := QueueReady(w, s, g, false, buf, rest);
            && n == Some(Min(Min(buf, rest), g)) && ReservationsInv(r) && Holds(r, s, Min(Min(buf, rest), g))
            && r.wnd == w.wnd && r.reserved - {s} == w.reserved - {s}
  {
    ReleaseKeeps(w, s);
    hide Sum;
    ReserveKeeps(Release(w, s), s, Min(Min(buf, rest), g));
  }

  // ----- the critical sections as the threads run them -----

  /** The fields the lambdas update under the stream mutex.  `resWndSizes` is the map of the source,
      the total under key 0 included. */
  class SendWindows {
    var streams: map<nat, int>
    var resWndSizes: map<nat, int>
    var initWindowSize: int

    function View(): Windows
      reads this
    {
      Windows(streams, At(resWndSizes, 0), resWndSizes - {0}, initWindowSize)
    }

    constructor ()
      ensures View() == INIT.w
    {
      streams := map[0 := DEFAULT_WINDOW];
      resWndSizes := map[];
      initWindowSize := DEFAULT_WINDOW;
    }

    method CleanUpReservation(s: nat)
      requires s != 0
      modifies `resWndSizes
      ensures View() == Release(old(View()), s)
    {
      if s in resWndSizes {
        resWndSizes := resWndSizes[0 := Unsigned64(At(resWndSizes, 0) - resWndSizes[s])];
        resWndSizes := resWndSizes - {s};
      }
      assert resWndSizes - {0} == Release(old(View()), s).reserved;
    }

    method AddReservation(s: nat, n: int)
      requires s != 0
      modifies `resWndSizes
      ensures View() == Reserve(old(View()), s, n)
    {
      if n > 0 {
        resWndSizes := resWndSizes[0 := Unsigned64(At(resWndSizes, 0) + n)];
        resWndSizes := resWndSizes[s := n];
      }
      assert resWndSizes - {0} == Reserve(old(View()), s, n).reserved;
    }

    method GetStreamWindowSize(s: nat) returns (wnd: Option<int>)
      requires s != 0
      modifies `resWndSizes
      ensures (View(), wnd) == GetWindow(old(View()), s)
    {
      CleanUpReservation(s);
      if s !in streams || 0 !in streams {
        return None;
      }
      var w := Min(streams[s], Signed64(streams[0] - At(resWndSizes, 0)));
      AddReservation(s, w);
      wnd := Some(w);
    }

    method SendQueueReady(s: nat, grant: int, queueFull: bool, bufSize: nat, rest: nat) returns (n: Option<nat>)
      requires s != 0
      modifies `resWndSizes
      ensures (View(), n) == QueueReady(old(View()), s, grant, queueFull, bufSize, rest)
    {
      var sendLen: nat := 0;
      n := None;
      if !queueFull && grant > 0 {
        sendLen := Min(Min(bufSize, rest), grant);
        n := Some(sendLen);
      }
      CleanUpReservation(s);
      AddReservation(s, sendLen);
    }

    method UpdateStreamParam(s: nat, n: nat) returns (ok: bool)
      requires s != 0
      modifies this
      ensures (View(), ok) == Charge(old(View()), s, n)
    {
      CleanUpReservation(s);
      if s !in streams { return false; }
      streams := streams[s := streams[s] - Unsigned32(n)];
      if 0 !in streams { return false; }
      streams := streams[0 := streams[0] - Unsigned32(n)];
      ok := true;
    }

    /** The SETTINGS loop walks the table and shifts every entry but 0. */
    method ApplyInitialWindowSize(v: nat) returns (ok: bool)
      modifies this
      ensures ok == SetInitial(old(View()), v).Some?
      ensures View() == if ok then SetInitial(old(View()), v).value else old(View())
    {
      if v >= MAX_WINDOW { return false; }
      var delta := Signed32(Unsigned64(v - initWindowSize));
      hide Signed32, Unsigned64;
      initWindowSize := v;
      var todo := streams.Keys;
      while todo != {}
        invariant todo <= streams.Keys == old(streams).Keys
        invariant forall s :: s in streams ==>
                    streams[s] == old(streams)[s] + if s in todo || s == 0 then 0 else delta
        invariant resWndSizes == old(resWndSizes) && initWindowSize == v
        decreases |todo|
      {
        var s :| s in todo;
        if s != 0 {
          streams := streams[s := streams[s] + delta];
        }
        todo := todo - {s};
      }
      ghost var shifted := SetInitial(old(View()), v).value.wnd;
      assert streams.Keys == shifted.Keys && forall s :: s in streams ==> streams[s] == shifted[s];
      hide SetInitial;
      assert streams == shifted;
      ok := true;
    }

    method ApplyWindowUpdate(s: nat, v: nat) returns (ok: bool)
      modifies `streams
      ensures ok == AddCredit(old(View()), s, v).Some?
      ensures View() == if ok then AddCredit(old(View()), s, v).value else old(View())
    {
      if s !in streams { return false; }
      if !(1 <= v <= MAX_WINDOW) || streams[s] + v > MAX_WINDOW { return false; }
      streams := streams[s := streams[s] + v];
      ok := true;
    }
  }
}
