/** The asynchronous log writer: any number of producers push messages under a mutex; a detached thread,
started by whoever finds none running, writes them to the file outside the mutex.

Every access to shared state is a step of its own, so the atomicity of the critical sections is
derived from the mutex, not assumed. */
module LogFile {
  type Msg = string

  datatype Owner = Free | ByProducer(p: nat) | ByWriter(i: nat) | ByDestructor

  /** StartWriteThread: lock, push, compare-exchange (which may start a thread), unlock. */
  datatype Producer = Locked(msg: Msg) | Pushed | Tested

  /** The thread body, one state between any two accesses. */
  datatype Writer =
    | Starting          // before open
    | Opened            // wants the mutex
    | Looking           // holds it, at the loop head
    | Popped(msg: Msg)  // holds it, message taken
    | Writing(msg: Msg) // mutex released, message not yet in the file
    | Closing           // holds it, flag cleared
    | Failed            // open failed, wants the mutex
    | Clearing          // holds it, list not yet cleared
    | Cleared           // holds it, flag not yet cleared
    | Done

  datatype Fate = Written(msg: Msg) | Dropped(msg: Msg)

  datatype State = State(
    owner: Owner,
    queue: seq<Msg>,           // m_lstMessages
    running: bool,             // m_atThrRunning
    file: seq<Msg>,
    producers: map<nat, Producer>,
    writers: seq<Writer>,      // in the order they were started
    destroyed: bool,
    pushed: seq<Msg>,          // every message ever pushed
    fates: seq<Fate>,          // what became of those that left the list
    failures: nat)             // opens that failed and cleared the list

  const INIT := State(Free, [], false, [], map[], [], false, [], [], 0)

  datatype Event =
    | Lock(p: nat, msg: Msg)
    | Produce(p: nat)
    | Open(i: nat, ok: bool)
    | Write(i: nat)
    | Destroy

  /** A thread that holds the mutex. */
  predicate Holds(w: Writer) { w.Looking? || w.Popped? || w.Closing? || w.Clearing? || w.Cleared? }

  function ProducerStep(s: State, p: nat): State
    requires p in s.producers
  {
    match s.producers[p]
    case Locked(m) =>
      s.(queue := s.queue + [m], pushed := s.pushed + [m], producers := s.producers[p := Pushed])
    case Pushed =>
      if s.running then s.(producers := s.producers[p := Tested])
      else s.(running := true, writers := s.writers + [Starting], producers := s.producers[p := Tested])
    case Tested => s.(owner := Free, producers := s.producers - {p})
  }

  function WriterStep(s: State, i: nat): State
    requires i < |s.writers|
  {
    match s.writers[i]
    case Opened => if s.owner.Free? then s.(owner := ByWriter(i), writers := s.writers[i := Looking]) else s
    case Looking =>
      if s.queue != [] then s.(queue := s.queue[1..], writers := s.writers[i := Popped(s.queue[0])])
      else s.(running := false, writers := s.writers[i := Closing])
    case Popped(m) => s.(owner := Free, writers := s.writers[i := Writing(m)])
    case Writing(m) => s.(file := s.file + [m], fates := s.fates + [Written(m)], writers := s.writers[i := Opened])
    case Closing => s.(owner := Free, writers := s.writers[i := Done])
    case Failed => if s.owner.Free? then s.(owner := ByWriter(i), writers := s.writers[i := Clearing]) else s
    case Clearing =>
      s.(queue := [], fates := s.fates + DropAll(s.queue), failures := s.failures + 1,
         writers := s.writers[i := Cleared])
    case Cleared => s.(running := false, writers := s.writers[i := Closing])
    case _ => s
  }

  function DropAll(q: seq<Msg>): seq<Fate> { seq(|q|, k requires 0 <= k < |q| => Dropped(q[k])) }

  /** One step of one thread; a step that is not enabled changes nothing.  The destructor takes the
      mutex, looks, and either leaves or releases it and sleeps. */
  function Step(s: State, ev: Event): State {
    match ev
    case Lock(p, msg) =>
      if s.owner.Free? && p !in s.producers then
        s.(owner := ByProducer(p), producers := s.producers[p := Locked(msg)])
      else s
    case Produce(p) => if p in s.producers then ProducerStep(s, p) else s
    case Open(i, ok) =>
      if i < |s.writers| && s.writers[i].Starting? then
        s.(writers := s.writers[i := if ok then Opened else Failed])
      else s
    case Write(i) => if i < |s.writers| then WriterStep(s, i) else s
    case Destroy =>
      if s.owner.Free? then s.(owner := ByDestructor)
      else if s.owner.ByDestructor? then s.(owner := Free, destroyed := s.destroyed || (s.queue == [] && !s.running))
      else s
  }

  function Run(evs: seq<Event>): State {
    if evs == [] then INIT else Step(Run(evs[..|evs| - 1]), evs[|evs| - 1])
  }

  // ----- what the messages became -----

  function Messages(fates: seq<Fate>): seq<Msg> { seq(|fates|, k requires 0 <= k < |fates| => fates[k].msg) }

  function Kept(fates: seq<Fate>): seq<Msg> {
    if fates == [] then []
    else
      var f := fates[|fates| - 1];
      Kept(fates[..|fates| - 1]) + (if f.Written? then [f.msg] else [])
  }

  function Drops(fates: seq<Fate>): nat {
    if fates == [] then 0 else Drops(fates[..|fates| - 1]) + (if fates[|fates| - 1].Dropped? then 1 else 0)
  }

  function InFlight(w: Writer): seq<Msg> { if w.Popped? || w.Writing? then [w.msg] else [] }

  function Active(s: State): Writer { if s.writers == [] then Done else s.writers[|s.writers| - 1] }

  lemma {:induction false} DroppedAll(fates: seq<Fate>, q: seq<Msg>)
    ensures Kept(fates + DropAll(q)) == Kept(fates) && Drops(fates + DropAll(q)) == Drops(fates) + |q|
    decreases |q|
  {
    if q == [] {
      assert fates + DropAll(q) == fates;
    } else {
      var n := |q| - 1;
      assert (fates + DropAll(q))[..|fates| + n] == fates + DropAll(q[..n]);
      DroppedAll(fates, q[..n]);
    }
  }

  lemma WrittenOne(fates: seq<Fate>, m: Msg)
    ensures Kept(fates + [Written(m)]) == Kept(fates) + [m] && Drops(fates + [Written(m)]) == Drops(fates)
  {
    assert (fates + [Written(m)])[..|fates|] == fates;
  }

  // ----- the invariant -----

  /** Only the writer started last can be at work, and it is, up to its last unlock, exactly while the
      flag is set. */
  predicate OneWriter(s: State) {
    && (forall i :: 0 <= i < |s.writers| - 1 ==> s.writers[i].Done?)
    && (s.running <==> !Active(s).Done? && !Active(s).Closing?)
  }

  /** The mutex excludes: whoever is inside a critical section is the owner. */
  predicate Exclusive(s: State) {
    && s.producers.Keys == (if s.owner.ByProducer? then {s.owner.p} else {})
    && (Holds(Active(s)) <==> (s.writers != [] && s.owner == ByWriter(|s.writers| - 1)))
    && (s.owner.ByWriter? ==> s.owner.i == |s.writers| - 1)
  }

  /** No lost wake-up: whoever pushed onto an idle list is still inside its critical section. */
  predicate NoLostWakeUp(s: State) {
    && (s.queue != [] && !s.running ==>
      s.owner.ByProducer? && s.owner.p in s.producers && s.producers[s.owner.p].Pushed?)
    && (Active(s).Starting? || Active(s).Failed? || Active(s).Clearing? ==> s.queue != [])
    && (s.owner.ByProducer? && s.owner.p in s.producers && s.producers[s.owner.p].Pushed? ==> s.queue != [])
    && (Active(s).Cleared? || Active(s).Closing? ==> s.queue == [])
  }

  /** Every message pushed is accounted for, in push order. */
  predicate Accounted(s: State) {
    && s.pushed == Messages(s.fates) + InFlight(Active(s)) + s.queue
    && s.file == Kept(s.fates)
    && s.failures <= Drops(s.fates)
    && (s.failures == 0 ==> Drops(s.fates) == 0)
  }

  predicate Inv(s: State) { OneWriter(s) && Exclusive(s) && NoLostWakeUp(s) && Accounted(s) }

  lemma ProducerKeeps(s: State, p: nat)
    requires Inv(s) && p in s.producers
    ensures Inv(ProducerStep(s, p))
  {
    hide Accounted;
    assert s.owner == ByProducer(p);
    assert s.producers.Keys == {p};
    ProducerAccounts(s, p);
  }

  lemma ProducerAccounts(s: State, p: nat)
    requires Accounted(s) && p in s.producers && (!s.running ==> Active(s).Done? || Active(s).Closing?)
    ensures Accounted(ProducerStep(s, p))
  {
    var s' := ProducerStep(s, p);
    hide Messages, Kept, Drops;
    assert InFlight(Active(s')) == InFlight(Active(s));
  }

  lemma WriterKeepsControl(s: State, i: nat)
    requires OneWriter(s) && Exclusive(s) && NoLostWakeUp(s) && i == |s.writers| - 1
    ensures var s' := WriterStep(s, i); OneWriter(s') && Exclusive(s') && NoLostWakeUp(s')
  {
    assert WriterStep(s, i).writers[..i] == s.writers[..i];
    assert |WriterStep(s, i).writers| == |s.writers|;
  }

  /** What leaves the list next keeps its place: the head moves into flight, from there into the fates. */
  lemma Shift(settled: seq<Msg>, m: Msg, rest: seq<Msg>)
    ensures settled + [] + ([m] + rest) == settled + [m] + rest == (settled + [m]) + [] + rest
  {
  }

  lemma WritingAccounts(s: State, i: nat)
    requires Accounted(s) && i == |s.writers| - 1 && s.writers[i].Writing?
    ensures Accounted(WriterStep(s, i))
  {
    var (s', m) := (WriterStep(s, i), s.writers[i].msg);
    WrittenOne(s.fates, m);
    assert Messages(s'.fates) == Messages(s.fates) + [m];
    assert InFlight(Active(s)) == [m] && InFlight(Active(s')) == [];
    hide Messages, Kept, Drops, InFlight, Active, WriterStep;
    Shift(Messages(s.fates), m, s.queue);
  }

  lemma ClearingAccounts(s: State, i: nat)
    requires Accounted(s) && i == |s.writers| - 1 && s.writers[i].Clearing? && s.queue != []
    ensures Accounted(WriterStep(s, i))
  {
    var s' := WriterStep(s, i);
    DroppedAll(s.fates, s.queue);
    assert Messages(s'.fates) == Messages(s.fates) + s.queue;
    assert InFlight(Active(s)) == InFlight(Active(s')) == [];
    hide Messages, Kept, Drops, InFlight, Active;
    assert s'.pushed == Messages(s'.fates) + [] + [];
  }

  lemma LookingAccounts(s: State, i: nat)
    requires Accounted(s) && i == |s.writers| - 1 && s.writers[i].Looking? && s.queue != []
    ensures Accounted(WriterStep(s, i))
  {
    var (s', m) := (WriterStep(s, i), s.queue[0]);
    assert InFlight(Active(s)) == [] && InFlight(Active(s')) == [m];
    hide Messages, Kept, Drops, InFlight, Active;
    Shift(Messages(s.fates), m, s.queue[1..]);
    assert s.queue == [m] + s.queue[1..];
  }

  lemma WriterKeepsAccounts(s: State, i: nat)
    requires Accounted(s) && i == |s.writers| - 1
    requires s.writers[i].Clearing? ==> s.queue != []
    ensures Accounted(WriterStep(s, i))
  {
    if s.writers[i].Clearing? {
      ClearingAccounts(s, i);
    } else if s.writers[i].Writing? {
      WritingAccounts(s, i);
    } else if s.writers[i].Looking? && s.queue != [] {
      LookingAccounts(s, i);
    } else {
      var s' := WriterStep(s, i);
      hide Messages, Kept, Drops;
      assert s'.pushed == s.pushed && s'.fates == s.fates && InFlight(Active(s')) == InFlight(Active(s));
      assert s'.queue == s.queue && s'.file == s.file && s'.failures == s.failures;
    }
  }

  lemma WriterKeeps(s: State, i: nat)
    requires Inv(s) && i < |s.writers|
    ensures Inv(WriterStep(s, i))
  {
    if i < |s.writers| - 1 {
      assert WriterStep(s, i) == s;
    } else {
      WriterKeepsControl(s, i);
      assert Active(s) == s.writers[i];
      hide OneWriter, Exclusive, Accounted, WriterStep, Messages, Kept, Drops;
      WriterKeepsAccounts(s, i);
    }
  }

  lemma OtherKeeps(s: State, ev: Event)
    requires Inv(s) && !ev.Produce? && !ev.Write?
    ensures Inv(Step(s, ev))
  {
    hide Accounted;
    OtherMovesNone(s, ev);
  }

  lemma OtherMovesNone(s: State, ev: Event)
    requires Accounted(s) && !ev.Produce? && !ev.Write?
    ensures Accounted(Step(s, ev))
  {
    var s' := Step(s, ev);
    hide Messages, Kept, Drops;
    assert |s'.writers| == |s.writers| && InFlight(Active(s')) == InFlight(Active(s));
    assert s'.fates == s.fates && s'.failures == s.failures && s'.file == s.file;
  }

  lemma StepKeeps(s: State, ev: Event)
    requires Inv(s)
    ensures Inv(Step(s, ev))
  {
    hide Inv, ProducerStep, WriterStep;
    match ev
    case Produce(p) => if p in s.producers { ProducerKeeps(s, p); }
    case Write(i) => if i < |s.writers| { WriterKeeps(s, i); }
    case _ => OtherKeeps(s, ev);
  }

  lemma {:induction false} RunKeeps(evs: seq<Event>)
    ensures Inv(Run(evs))
    decreases |evs|
  {
    assert Inv(INIT);
    hide Inv, Step;
    if evs != [] {
      RunKeeps(evs[..|evs| - 1]);
      StepKeeps(Run(evs[..|evs| - 1]), evs[|evs| - 1]);
    }
  }

  // ----- main results, over every interleaving -----

  /** No lost wake-up and one writer: whenever the mutex is free, a message waiting means a thread is
      running that will come back for it, and never are two threads at work. */
  lemma WaitingMeansRunning(evs: seq<Event>)
    ensures var s := Run(evs);
            && (s.owner.Free? && s.queue != [] ==> s.running && !Active(s).Done?)
            && (forall i, j :: 0 <= i < j < |s.writers| ==> s.writers[i].Done? || s.writers[j].Done?)
  {
    RunKeeps(evs);
  }

  lemma {:induction false} KeptAndDropped(fates: seq<Fate>)
    ensures |Kept(fates)| + Drops(fates) == |fates|
    ensures Drops(fates) == 0 ==> Kept(fates) == Messages(fates)
    decreases |fates|
  {
    if fates != [] {
      var n := |fates| - 1;
      KeptAndDropped(fates[..n]);
      assert Messages(fates) == Messages(fates[..n]) + [fates[n].msg];
    }
  }

  /** Conservation: the file, the message in flight and the list hold every message pushed, in push
      order and once each, exactly when no thread failed to open the file.  Whatever happens, each
      message pushed is either in the file, in order, or was cleared with the list, or is still there. */
  lemma EveryMessageOnce(evs: seq<Event>)
    ensures var s := Run(evs);
            && s.pushed == Messages(s.fates) + InFlight(Active(s)) + s.queue
            && s.file == Kept(s.fates)
            && (s.pushed == s.file + InFlight(Active(s)) + s.queue <==> s.failures == 0)
  {
    RunKeeps(evs);
    KeptAndDropped(Run(evs).fates);
  }

  /** The destructor leaves exactly when nothing is left to write and no thread uses the object any more. */
  lemma DestructorWaits(evs: seq<Event>)
    requires Run(evs).owner.ByDestructor? && !Run(evs).destroyed
    ensures var (s, s') := (Run(evs), Run(evs + [Destroy]));
            s'.destroyed <==> |s.fates| == |s.pushed| && forall i :: 0 <= i < |s.writers| ==> s.writers[i].Done?
  {
    RunKeeps(evs);
    RunSnoc(evs, Destroy);
    hide Run, Kept, Drops;
    var s := Run(evs);
    assert !Active(s).Closing? && |Messages(s.fates)| == |s.fates|;
    assert |s.pushed| == |s.fates| + |InFlight(Active(s))| + |s.queue|;
    if !s.running { assert forall i :: 0 <= i < |s.writers| ==> s.writers[i].Done?; }
  }

  lemma RunSnoc(evs: seq<Event>, ev: Event)
    ensures Run(evs + [ev]) == Step(Run(evs), ev)
  {
    assert (evs + [ev])[..|evs|] == evs;
  }

  // ----- the list drains -----

  /** What the active thread does next; it can always open the file. */
  function Next(s: State): Event {
    var i: nat := if s.writers == [] then 0 else |s.writers| - 1;
    if Active(s).Starting? then Open(i, true) else Write(i)
  }

  function Work(s: State): nat {
    5 * |s.queue| +
    match Active(s)
    case Starting => 5
    case Opened => 3
    case Looking => 2
    case Popped(_) => 5
    case Writing(_) => 4
    case Closing => 1
    case Failed => 4
    case Clearing => 3
    case Cleared => 2
    case Done => 0
  }

  /** No open has failed so far. */
  predicate Healthy(s: State) { s.failures == 0 && !Active(s).Failed? && !Active(s).Clearing? }

  /** The thread is never stuck: with no producer or destructor inside, its next step advances. */
  lemma WriterAdvances(s: State)
    requires Inv(s) && !Active(s).Done? && (s.owner.Free? || s.owner.ByWriter?)
    ensures var s' := Step(s, Next(s));
            && Work(s') < Work(s) && s'.pushed == s.pushed && (s'.owner.Free? || s'.owner.ByWriter?)
            && (Healthy(s) ==> Healthy(s'))
  {
    hide Messages, Kept, Drops;
  }

  predicate Settled(s: State) {
    && s.queue == [] && !s.running && s.owner.Free?
    && |s.fates| == |s.pushed| && Messages(s.fates) == s.pushed
  }

  predicate OfWriters(evs: seq<Event>) { forall k :: 0 <= k < |evs| ==> evs[k].Open? || evs[k].Write? }

  /** From `s` on every message pushed has come to its end, and into the file unless an open had failed. */
  predicate Drained(s: State, t: State) {
    Settled(t) && t.pushed == s.pushed && (Healthy(s) ==> t.file == s.pushed)
  }

  lemma NothingToDrain(evs: seq<Event>)
    requires (Run(evs).owner.Free? || Run(evs).owner.ByWriter?) && Active(Run(evs)).Done?
    ensures Drained(Run(evs), Run(evs))
  {
    EveryMessageOnce(evs);
    RunKeeps(evs);
    hide Run, Kept, Drops;
    assert |Messages(Run(evs).fates)| == |Run(evs).fates|;
  }

  /** One step first, then `more`. */
  lemma DrainedStepwise(evs: seq<Event>, more: seq<Event>)
    requires (Run(evs).owner.Free? || Run(evs).owner.ByWriter?) && !Active(Run(evs)).Done?
    requires var e := Next(Run(evs)); OfWriters(more) && Drained(Run(evs + [e]), Run(evs + [e] + more))
    ensures var e := Next(Run(evs)); OfWriters([e] + more) && Drained(Run(evs), Run(evs + ([e] + more)))
  {
    var e := Next(Run(evs));
    hide Run, Settled, Step, Inv, Healthy, Active;
    RunKeeps(evs);
    WriterAdvances(Run(evs));
    RunSnoc(evs, e);
    assert evs + [e] + more == evs + ([e] + more);
  }

  lemma NextAdvances(evs: seq<Event>)
    requires (Run(evs).owner.Free? || Run(evs).owner.ByWriter?) && !Active(Run(evs)).Done?
    ensures var t := Run(evs + [Next(Run(evs))]); Work(t) < Work(Run(evs)) && (t.owner.Free? || t.owner.ByWriter?)
  {
    hide Run, Step, Inv, Work;
    RunKeeps(evs);
    WriterAdvances(Run(evs));
    RunSnoc(evs, Next(Run(evs)));
  }

  /** In every reachable state in which no producer or destructor holds the mutex, the thread alone
      drains the list. */
  lemma {:induction false} ListDrains(evs: seq<Event>)
    requires Run(evs).owner.Free? || Run(evs).owner.ByWriter?
    ensures exists more :: OfWriters(more) && Drained(Run(evs), Run(evs + more))
    decreases Work(Run(evs))
  {
    hide Run, Active, Work, Next, Drained;
    if Active(Run(evs)).Done? {
      NothingToDrain(evs);
      assert evs + [] == evs && OfWriters([]);
    } else {
      var e := Next(Run(evs));
      NextAdvances(evs);
      ListDrains(evs + [e]);
      var more :| OfWriters(more) && Drained(Run(evs + [e]), Run(evs + [e] + more));
      DrainedStepwise(evs, more);
    }
  }

  // ----- the code of the two critical sections -----

  function Flat(batches: seq<seq<Msg>>): seq<Msg> {
    if batches == [] then [] else Flat(batches[..|batches| - 1]) + batches[|batches| - 1]
  }

  class Log {
    var lstMessages: seq<Msg>
    var thrRunning: bool
    var file: seq<Msg>

    ghost predicate Valid()
      reads this
    {
      lstMessages != [] ==> thrRunning
    }

    /** StartWriteThread; `start` says that this caller starts the thread. */
    method StartWriteThread(msg: Msg) returns (start: bool)
      requires Valid()
      modifies this`lstMessages, this`thrRunning
      ensures Valid() && thrRunning && lstMessages == old(lstMessages) + [msg]
      ensures start <==> !old(thrRunning)
    {
      lstMessages := lstMessages + [msg];
      start := !thrRunning;
      if start { thrRunning := true; }
    }

    /** The thread body.  `arrivals[k]` are the messages producers push while the k-th message is being
        written; none of them starts a second thread, and all of them are written before the thread ends. */
    method WriteThread(isOpen: bool, arrivals: seq<seq<Msg>>) returns (written: nat)
      requires Valid() && thrRunning
      modifies this
      ensures Valid() && !thrRunning && lstMessages == []
      ensures isOpen ==>
                file == old(file) + old(lstMessages)
                  + Flat(arrivals[..if written <= |arrivals| then written else |arrivals|])
      ensures isOpen ==> |file| == |old(file)| + written
      ensures !isOpen ==> file == old(file)
    {
      written := 0;
      if isOpen {
        ghost var seen: nat := 0;
        while lstMessages != []
          invariant Valid() && thrRunning && seen == if written <= |arrivals| then written else |arrivals|
          invariant file + lstMessages == old(file) + old(lstMessages) + Flat(arrivals[..seen])
          invariant |file| == |old(file)| + written
          decreases |arrivals| - seen, |lstMessages|
        {
          ghost var total := file + lstMessages;
          var msg := lstMessages[0];
          lstMessages := lstMessages[1..];
          file := file + [msg];
          assert file + lstMessages == total;
          if written < |arrivals| {
            assert arrivals[..seen + 1][..seen] == arrivals[..seen];
            assert Flat(arrivals[..seen + 1]) == Flat(arrivals[..seen]) + arrivals[seen];
            ghost var left := lstMessages;
            PushAll(arrivals[written]);
            assert file + lstMessages == (file + left) + arrivals[seen];
            seen := seen + 1;
          }
          written := written + 1;
        }
      } else {
        lstMessages := [];
      }
      thrRunning := false;
    }

    /** Producers while the thread is running. */
    method PushAll(batch: seq<Msg>)
      requires Valid() && thrRunning
      modifies this`lstMessages, this`thrRunning
      ensures Valid() && thrRunning && lstMessages == old(lstMessages) + batch
    {
      for k := 0 to |batch|
        invariant Valid() && thrRunning && lstMessages == old(lstMessages) + batch[..k]
      {
        var start := StartWriteThread(batch[k]);
        assert !start;
      }
    }
  }
}
