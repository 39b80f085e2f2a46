/** producer_thread, consumer_thread and main of test/cond/cond-stress.c in their own shape, running on the
    machine of module CondStress under every schedule. */
module CondStressCode {
  import opened Scheduling
  import opened CondStress
  import Sums

  /** What the others do before a thread's next step, and whom a signal wakes. */
  datatype Slot = Slot(others: seq<Act>, woken: set<nat>)

  /** The step of the source that a thread is at. */
  function Own(s: State, me: Who, woken: set<nat>): Act
    requires !me.Nobody?
  {
    match me
    case Producer(i) => StepProducer(i, if woken * Sleepers(s) == {} then Sleepers(s) else woken * Sleepers(s))
    case Consumer(j) => StepConsumer(j)
    case Main => StepMain
  }

  predicate IsOwn(a: Act, me: Who) {
    match a
    case StepProducer(i, _) => me == Producer(i)
    case StepConsumer(j) => me == Consumer(j)
    case StepMain => me == Main
    case Spurious(_) => false
  }

  predicate Exists(s: State, me: Who) {
    match me
    case Nobody => false
    case Producer(i) => i < |s.prod|
    case Consumer(j) => j < |s.cons|
    case Main => true
  }

  /** The others leave a thread where it is, except that they may wake it. */
  predicate Undisturbed(s: State, s': State, me: Who) {
    && |s'.prod| == |s.prod| && |s'.cons| == |s.cons| && s'.consumed >= s.consumed
    && match me
       case Nobody => true
       case Producer(i) => i < |s.prod| ==> s'.prod[i] == s.prod[i]
       case Consumer(j) => j < |s.cons| ==> (s'.cons[j] == s.cons[j] || (s.cons[j].CAsleep? && s'.cons[j].CRelock?))
       case Main => s'.main == s.main
  }

  /** The thread cannot move: another one has the mutex, it sleeps, or it joins threads still at work. */
  predicate StalledIn(s: State, me: Who) {
    Exists(s, me) && !Enabled(s, Own(s, me, {}))
  }

  /** In one of the states of the run from `past` on, the thread cannot move. */
  ghost predicate Stalled(run: seq<State>, me: Who, past: nat) {
    exists k :: past <= k < |run| && StalledIn(run[k], me)
  }

  lemma StalledNow(run: seq<State>, me: Who, past: nat)
    requires past < |run| && StalledIn(run[|run| - 1], me)
    ensures Stalled(run, me, past)
  {
  }

  lemma StillStalled(run: seq<State>, run': seq<State>, me: Who, past: nat)
    requires run <= run' && Stalled(run, me, past)
    ensures Stalled(run', me, past)
  {
    var k :| past <= k < |run| && StalledIn(run[k], me);
    assert StalledIn(run'[k], me);
  }

  lemma WokenMakesNoOdds(s: State, me: Who, woken: set<nat>)
    requires Exists(s, me) && !Enabled(s, Own(s, me, woken))
    ensures StalledIn(s, me)
  {
  }

  /** The mutex, the condition variable and the two variables they guard. */
  class Memory {
    var s: State
    var schedule: seq<Slot>
    ghost var run: seq<State>
    ghost var acts: seq<Act>

    ghost predicate Valid()
      reads this
    {
      IsRun(run, acts) && run[|acts|] == s
    }

    /** The state the run began in. */
    ghost function Start(): State
      requires Valid()
      reads this
    {
      run[0]
    }

    /** The run goes on from where it was. */
    twostate predicate GoesOn()
      reads this
    {
      && Valid() && old(Valid()) && Start() == old(Start())
      && old(run) <= run && old(acts) <= acts
    }

    /** Of `slots` slots at most n have been used, unless the thread was stalled in between. */
    ghost predicate Within(slots: nat, n: int, me: Who, past: nat)
      reads this
    {
      |schedule| + n >= slots || Stalled(run, me, past)
    }

    constructor (start: State, schedule: seq<Slot>)
      requires Init(start)
      ensures Valid() && s == start && this.schedule == schedule && Start() == start && acts == []
    {
      s, run, acts := start, [start], [];
      this.schedule := schedule;
    }

    method Do(a: Act)
      requires Valid() && Enabled(s, a)
      modifies this`s, this`run, this`acts
      ensures Valid() && s == Apply(old(s), a) && acts == old(acts) + [a] && run == old(run) + [s]
      ensures Start() == old(Start())
    {
      s := Apply(s, a);
      run, acts := run + [s], acts + [a];
    }

    /** Lets the others go, as far as they can; what a signal of one's own would wake is `woken`. */
    method Others(me: Who) returns (r: Progress<set<nat>>)
      requires Valid() && Exists(s, me)
      modifies this
      ensures GoesOn() && Undisturbed(old(s), s, me)
      ensures |run| > 0 && run[|run| - 1] == s
      ensures if r.Preempted? then schedule == old(schedule) == [] else |schedule| == |old(schedule)| - 1
    {
      if schedule == [] {
        return Preempted;
      }
      var slot := schedule[0];
      schedule := schedule[1..];
      for k := 0 to |slot.others|
        invariant GoesOn() && Undisturbed(old(s), s, me)
        invariant |schedule| == |old(schedule)| - 1
      {
        if Enabled(s, slot.others[k]) && !IsOwn(slot.others[k], me) {
          Do(slot.others[k]);
        }
      }
      return Went(slot.woken);
    }

    /** The thread's next step, put off while it is stalled. `from` is the state it is taken in, and
        `a` the step. */
    method Step(me: Who, ghost past: nat) returns (r: Progress<State>, ghost a: Act)
      requires Valid() && Exists(s, me) && past < |run|
      modifies this
      ensures GoesOn() && |s.prod| == |old(s.prod)| && |s.cons| == |old(s.cons)|
      ensures r.Went? ==> Undisturbed(old(s), r.value, me)
      ensures r.Went? ==> IsOwn(a, me) && Enabled(r.value, a) && s == Apply(r.value, a)
      ensures past < |run| && run[|run| - 1] == s && s.consumed >= old(s).consumed
      ensures old(Stalled(run, me, past)) ==> Stalled(run, me, past)
      ensures if r.Preempted? then schedule == [] && (old(schedule) != [] ==> Stalled(run, me, past))
              else |schedule| < |old(schedule)| && Within(|old(schedule)|, 1, me, past)
    {
      hide IsRun, Apply, Enabled, Stalled, StalledIn, Undisturbed;
      a := StepMain;
      ghost var stalled := Stalled(run, me, past);
      Itself(s, me);
      while true
        invariant GoesOn() && Undisturbed(old(s), s, me) && Exists(s, me)
        invariant past < |run| && |schedule| <= |old(schedule)|
        invariant if stalled then Stalled(run, me, past) else schedule == old(schedule)
        invariant s.consumed >= old(s).consumed && (old(Stalled(run, me, past)) ==> stalled)
        decreases |schedule|
      {
        ghost var before, was := run, s;
        var waited := Others(me);
        StillThere(old(s), was, s, me);
        if stalled { StillStalled(before, run, me, past); }
        if waited.Preempted? {
          return Preempted, a;
        }
        a := Own(s, me, waited.value);
        if Enabled(s, Own(s, me, waited.value)) {
          before := run;
          var from := s;
          Do(Own(s, me, waited.value));
          if stalled { StillStalled(before, run, me, past); }
          SameThreads(from, a);
          return Went(from), a;
        }
        WokenMakesNoOdds(s, me, waited.value);
        StalledNow(run, me, past);
        stalled := true;
      }
      return Preempted, a;
    }
  }

  lemma Itself(s: State, me: Who)
    ensures Undisturbed(s, s, me)
  {
  }

  lemma StillThere(s: State, s1: State, s2: State, me: Who)
    requires Undisturbed(s, s1, me) && Undisturbed(s1, s2, me) && Exists(s, me)
    ensures Undisturbed(s, s2, me) && Exists(s2, me) && |s2.prod| == |s.prod| && |s2.cons| == |s.cons|
    ensures s2.consumed >= s.consumed
  {
  }

  lemma SameThreads(s: State, a: Act)
    requires Enabled(s, a)
    ensures |Apply(s, a).prod| == |s.prod| && |Apply(s, a).cons| == |s.cons|
    ensures Apply(s, a).consumed >= s.consumed
  {
  }

  /** The body of the producer's loop. */
  method ProduceItem(m: Memory, i: nat, left: nat, ghost past: nat) returns (r: Progress<()>)
    requires m.Valid() && i < |m.s.prod| && left > 0 && m.s.prod[i] == Prod(PLock, left) && past < |m.run|
    modifies m
    ensures m.GoesOn() && i < |m.s.prod| && past < |m.run|
    ensures r.Went? ==> m.s.prod[i] == Prod(PLock, left - 1)
    ensures old(Stalled(m.run, Producer(i), past)) ==> Stalled(m.run, Producer(i), past)
    ensures if r.Preempted? then m.schedule == [] && m.Within(|old(m.schedule)|, 3, Producer(i), past)
            else m.Within(|old(m.schedule)|, 4, Producer(i), past)
  {
    hide IsRun, Stalled;
    var me := Producer(i);
    var step; ghost var a;
    step, a := m.Step(me, past);        // mulle_thread_mutex_lock
    var _ :- step;
    step, a := m.Step(me, past);        // queue++
    var from :- step;
    assert m.s.queue == from.queue + 1;
    step, a := m.Step(me, past);        // mulle_thread_cond_signal
    var _ :- step;
    step, a := m.Step(me, past);        // mulle_thread_mutex_unlock
    var _ :- step;
    return Went(());
  }

  /** Ends with nothing left to produce; four slots an item are enough unless the thread is stalled. */
  method ProducerThread(m: Memory, i: nat, items: nat) returns (r: Progress<()>)
    requires m.Valid() && i < |m.s.prod| && m.s.prod[i] == Prod(PLock, items) && |m.run| > 0
    modifies m
    ensures m.GoesOn() && i < |m.s.prod|
    ensures r.Went? ==> m.s.prod[i] == Prod(PLock, 0)
    ensures r.Preempted? ==>
      m.schedule == [] && (|old(m.schedule)| >= 4 * items ==> Stalled(m.run, Producer(i), |old(m.run)| - 1))
  {
    hide IsRun, Stalled;
    ghost var past, slots := |m.run| - 1, |m.schedule|;
    for n := 0 to items
      invariant m.GoesOn() && i < |m.s.prod|
      invariant m.s.prod[i] == Prod(PLock, items - n)
      invariant past < |m.run| && m.Within(slots, 4 * n, Producer(i), past)
    {
      var _ :- ProduceItem(m, i, items - n, past);
    }
    return Went(());
  }

  /** mulle_thread_cond_wait of a consumer: sleep, wake up for whatever reason, lock again. */
  method CondWait(m: Memory, j: nat, ghost past: nat) returns (r: Progress<()>)
    requires m.Valid() && j < |m.s.cons| && m.s.cons[j].CWait? && past < |m.run|
    modifies m
    ensures m.GoesOn() && j < |m.s.cons| && past < |m.run|
    ensures m.s.consumed >= old(m.s).consumed
    ensures r.Went? ==> |m.schedule| < |old(m.schedule)| && m.s.cons[j].CTest? && m.s.holder == Consumer(j)
    ensures r.Preempted? ==> m.schedule == []
    ensures old(m.schedule) != [] || old(Stalled(m.run, Consumer(j), past)) ==> Stalled(m.run, Consumer(j), past)
  {
    hide IsRun, Stalled;
    var me := Consumer(j);
    var step; ghost var a;
    step, a := m.Step(me, past);
    var _ :- step;
    StalledNow(m.run, me, past);
    while m.s.cons[j].CAsleep?
      invariant m.GoesOn() && j < |m.s.cons| && |m.schedule| < |old(m.schedule)|
      invariant m.s.cons[j].CAsleep? || m.s.cons[j].CRelock?
      invariant past < |m.run| && Stalled(m.run, me, past) && m.s.consumed >= old(m.s).consumed
      decreases |m.schedule|
    {
      ghost var before := m.run;
      var waited := m.Others(me);
      StillStalled(before, m.run, me, past);
      var _ :- waited;
    }
    step, a := m.Step(me, past);
    var _ :- step;
    return Went(());
  }

  lemma ConsumedIsPlanned(m: Memory)
    requires m.Valid()
    ensures m.s.consumed + m.s.queue <= Planned(m.Start())
  {
    ItemsAreConserved(m.run, m.acts, |m.acts|);
  }

  /** The head of the consumer's outer loop: lock, and wait until there is something to do. The thread then
      has the mutex and has found the queue not empty, or empty with everything done. */
  method AwaitWork(m: Memory, j: nat, ghost past: nat) returns (r: Progress<bool>)
    requires m.Valid() && j < |m.s.cons| && m.s.cons[j].CLock? && past < |m.run|
    modifies m
    ensures m.GoesOn() && j < |m.s.cons| && past < |m.run|
    ensures m.s.consumed >= old(m.s).consumed
    ensures r.Went? ==> m.s.cons[j] == (if r.value then CTake else CUnlock(true)) && |m.schedule| < |old(m.schedule)|
    ensures old(Stalled(m.run, Consumer(j), past)) ==> Stalled(m.run, Consumer(j), past)
    ensures m.Within(|old(m.schedule)|, 2, Consumer(j), past) && (r.Preempted? ==> m.schedule == [])
  {
    hide IsRun, Stalled;
    var me := Consumer(j);
    var step; ghost var a;
    step, a := m.Step(me, past);                    // mulle_thread_mutex_lock
    var _ :- step;
    step, a := m.Step(me, past);
    var from :- step;
    while from.queue == 0 && !from.done
      invariant m.GoesOn() && j < |m.s.cons| && |m.schedule| < |old(m.schedule)|
      invariant m.s.cons[j] == if from.queue == 0 && !from.done then CWait
                               else if from.queue > 0 then CTake else CUnlock(true)
      invariant past < |m.run| && m.s.consumed >= old(m.s).consumed
      invariant m.Within(|old(m.schedule)|, 2, me, past) && (old(Stalled(m.run, me, past)) ==> Stalled(m.run, me, past))
      decreases |m.schedule|
    {
      var _ :- CondWait(m, j, past);
      step, a := m.Step(me, past);
      from :- step;
    }
    return Went(from.queue > 0);
  }

  /** Takes an item out of the queue, which is not empty, and unlocks. */
  method TakeItem(m: Memory, j: nat, ghost past: nat) returns (r: Progress<()>)
    requires m.Valid() && j < |m.s.cons| && m.s.cons[j].CTake? && past < |m.run|
    modifies m
    ensures m.GoesOn() && j < |m.s.cons| && past < |m.run|
    ensures r.Went? ==> m.s.cons[j].CLock? && m.s.consumed > old(m.s.consumed) && |m.schedule| < |old(m.schedule)|
    ensures old(Stalled(m.run, Consumer(j), past)) ==> Stalled(m.run, Consumer(j), past)
    ensures r.Preempted? ==> m.schedule == []
    ensures r.Preempted? ==>
      m.Within(|old(m.schedule)|, if m.s.consumed > old(m.s.consumed) then 1 else 0, Consumer(j), past)
    ensures r.Went? ==> m.Within(|old(m.schedule)|, 2, Consumer(j), past)
  {
    hide IsRun, Stalled;
    var step; ghost var a;
    step, a := m.Step(Consumer(j), past);           // queue--, consumed++
    var before :- step;
    assert m.s.consumed == before.consumed + 1;
    step, a := m.Step(Consumer(j), past);           // mulle_thread_mutex_unlock
    var _ :- step;
    return Went(());
  }

  /** Goes home only when everything is produced and nothing is left. Four slots for every planned item and
      three to go home are enough unless the thread is stalled. */
  method ConsumerThread(m: Memory, j: nat) returns (r: Progress<()>)
    requires m.Valid() && j < |m.s.cons| && m.s.cons[j].CLock? && |m.run| > 0
    modifies m
    ensures m.GoesOn() && j < |m.s.cons|
    ensures r.Went? ==> m.s.cons[j].CExited? && m.s.queue == 0 && Planned(m.s) == 0
    ensures r.Preempted? ==> m.schedule == []
    ensures r.Preempted? && |old(m.schedule)| >= 4 * Planned(m.Start()) + 3 ==>
      Stalled(m.run, Consumer(j), |old(m.run)| - 1)
  {
    hide IsRun, Stalled, Memory.Valid;
    var me := Consumer(j);
    var step; ghost var a, past, slots := StepMain, |m.run| - 1, |m.schedule|;
    while true
      invariant m.GoesOn() && j < |m.s.cons| && m.s.cons[j].CLock?
      invariant past < |m.run| && m.Within(slots, 4 * m.s.consumed, me, past)
      decreases |m.schedule|
    {
      ConsumedIsPlanned(m);
      var something :- AwaitWork(m, j, past);
      ConsumedIsPlanned(m);
      if something {
        var taken := TakeItem(m, j, past);
        ConsumedIsPlanned(m);
        var _ :- taken;
      } else {
        step, a := m.Step(me, past);                // mulle_thread_mutex_unlock
        var _ :- step;
        NothingLeft(m, j);
        return Went(());
      }
    }
  }

  lemma NothingLeft(m: Memory, j: nat)
    requires m.Valid() && j < |m.s.cons| && m.s.cons[j].CExited?
    ensures m.s.queue == 0 && Planned(m.s) == 0
  {
    RunKeepsInv(m.run, m.acts);
    assert Inv(m.run[|m.acts|]);
    Sums.TotalConstant(ToCome, m.s.prod, 0);
  }

  method AnnounceDone(m: Memory, ghost past: nat) returns (r: Progress<()>)
    requires m.Valid() && m.s.main.MLock? && past < |m.run|
    modifies m
    ensures m.GoesOn() && past < |m.run|
    ensures r.Went? ==> m.s.main.MJoinConsumers?
    ensures old(Stalled(m.run, Main, past)) ==> Stalled(m.run, Main, past)
    ensures if r.Preempted? then m.schedule == [] && m.Within(|old(m.schedule)|, 3, Main, past)
            else m.Within(|old(m.schedule)|, 4, Main, past)
  {
    hide IsRun, Stalled;
    var step; ghost var a;
    step, a := m.Step(Main, past);                  // mulle_thread_mutex_lock
    var _ :- step;
    step, a := m.Step(Main, past);                  // done = 1
    var _ :- step;
    step, a := m.Step(Main, past);                  // mulle_thread_cond_broadcast
    var _ :- step;
    step, a := m.Step(Main, past);                  // mulle_thread_mutex_unlock
    var _ :- step;
    return Went(());
  }

  /** What main does once its threads run. It ends with 0 exactly when there was something to consume
      with, or nothing to consume. Six slots are enough unless it is stalled. */
  method MainThread(m: Memory) returns (r: Progress<int>)
    requires m.Valid() && m.s.main.MJoinProducers? && |m.run| > 0
    modifies m
    ensures m.GoesOn()
    ensures r.Went? ==> m.s.main.MEnd? && forall j :: 0 <= j < |m.s.cons| ==> m.s.cons[j].CExited?
    ensures r.Went? ==> r.value == if |m.Start().cons| > 0 || Planned(m.Start()) == 0 then 0 else 1
    ensures r.Went? && |m.Start().cons| > 0 ==> m.s.consumed == Planned(m.Start())
    ensures r.Preempted? ==> m.schedule == [] && (|old(m.schedule)| >= 6 ==> Stalled(m.run, Main, |old(m.run)| - 1))
  {
    hide IsRun, Stalled;
    ghost var a, past := StepMain, |m.run| - 1;
    var step;
    step, a := m.Step(Main, past);                  // mulle_thread_join of every producer
    var _ :- step;
    var _ :- AnnounceDone(m, past);
    step, a := m.Step(Main, past);                  // mulle_thread_join of every consumer
    var _ :- step;
    AllIsConsumed(m);
    return Went(if m.s.queue == 0 then 0 else 1);
  }

  lemma AllIsConsumed(m: Memory)
    requires m.Valid() && m.s.main.MEnd?
    ensures forall j :: 0 <= j < |m.s.cons| ==> m.s.cons[j].CExited?
    ensures if |m.Start().cons| > 0 then m.s.queue == 0 && m.s.consumed == Planned(m.Start())
            else m.s.queue == Planned(m.Start())
  {
    RunKeepsInv(m.run, m.acts);
    assert Inv(m.run[|m.acts|]);
    AllItemsConsumed(m.run, m.acts, |m.acts|);
  }
}
