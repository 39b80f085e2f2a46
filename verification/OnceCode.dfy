/** The once functions in the shape of mulle-thread.c and mulle-thread.h, running on the machine of module
    Once. The schedule says what other threads do before each access and which of the messages it may
    read the access gets; what is promised holds for every schedule. */
module OnceCode {
  import opened Scheduling
  import opened Once

  datatype Slot = Slot(others: seq<Act>, i: nat)

  predicate InInit(s: State, t: nat) {
    t < |s.thr| && s.thr[t].pc.Body?
  }

  /** In one of the states of the run from `past` on, t is in init. */
  ghost predicate RanInit(run: seq<State>, t: nat, past: nat) {
    exists k :: past <= k < |run| && InInit(run[k], t)
  }

  lemma StillRan(run: seq<State>, run': seq<State>, t: nat, past: nat)
    requires run <= run' && RanInit(run, t, past)
    ensures RanInit(run', t, past)
  {
    var k :| past <= k < |run| && InInit(run[k], t);
    assert InInit(run'[k], t);
  }

  /** Init's data are written by the one that is in init, and by nobody before somebody is. */
  lemma DataStay(s: State, a: Act, t: nat)
    requires Inv(s) && Enabled(s, a) && t < |s.thr| && a.t != t
    ensures Winner(s.thr[t].pc) ==> Apply(s, a).data == s.data
    ensures |Apply(s, a).word| == 1 ==> |s.word| == 1 && Apply(s, a).data == s.data
  {
    SharedEffect(s, a);
    assert ThreadInv(s, s.thr[t]) && ThreadInv(s, s.thr[a.t]);
  }

  /** What a compare-and-swap does, and where the thread goes from there. */
  lemma CasShows(s: State, t: nat, i: nat)
    requires Inv(s) && Enabled(s, Act(t, Go(i))) && (s.thr[t].pc.Cas? || s.thr[t].pc.Publish?)
    ensures i < |s.word| && |Apply(s, Act(t, Go(i))).thr| == |s.thr|
    ensures var s', pc, actual := Apply(s, Act(t, Go(i))), s.thr[t].pc, s.word[i].value;
      && s'.thr[t].calls == s.thr[t].calls && s'.data == s.data
      && s'.thr[t].pc == (if pc.Cas? then AfterCas(pc.kind, actual, s.initLen) else Returned(pc.kind))
      && (pc.Cas? && actual == DATA ==> |s.word| == 1 && |s'.word| == 2)
      && (pc.Publish? ==> |s'.word| == 3 && actual == BUSY)
      && (actual != DATA ==> |s.word| >= 2)
      && (SeenAll(s, s.thr[t]) ==> actual == DONE)
  {
    assert ThreadInv(s, s.thr[t]);
  }

  /** Memory shared by the threads, with the schedule still to come and the run so far. */
  class Memory {
    var s: State
    var schedule: seq<Slot>
    ghost var run: seq<State>
    ghost var acts: seq<Act>

    ghost predicate Valid()
      reads this
    {
      |run| == |acts| + 1 && IsRun(run, acts) && run[|acts|] == s && Inv(s)
    }

    /** The run goes on from where it was. */
    twostate predicate GoesOn()
      reads this
    {
      && Valid() && old(run) <= run && old(acts) <= acts && |s.thr| == |old(s.thr)| && s.initLen == old(s.initLen)
      && |old(s.word)| <= |s.word|
    }

    /** t has not been in init meanwhile. */
    twostate predicate NotInInit(t: nat)
      reads this
    {
      forall k :: |old(run)| <= k < |run| ==> !InInit(run[k], t)
    }

    constructor (start: State, schedule: seq<Slot>)
      requires Init(start)
      ensures Valid() && s == start && this.schedule == schedule && acts == []
    {
      RunKeepsInv([start], []);
      s, run, acts := start, [start], [];
      this.schedule := schedule;
    }

    method Do(a: Act)
      requires Valid() && Enabled(s, a)
      modifies this`s, this`run, this`acts
      ensures GoesOn() && s == Apply(old(s), a) && acts == old(acts) + [a] && run == old(run) + [s]
    {
      hide Apply;
      ExtendedIsRun(run, acts, a);
      StepKeepsInv(s, a);
      StepGrows(s, a);
      SharedEffect(s, a);
      s := Apply(s, a);
      run, acts := run + [s], acts + [a];
    }

    /** Whatever of `others` is possible and is not t's. */
    method LetOthersRun(t: nat, others: seq<Act>)
      requires Valid() && t < |s.thr|
      modifies this`s, this`run, this`acts
      ensures GoesOn() && s.thr[t] == old(s.thr[t])
      ensures Winner(s.thr[t].pc) || |s.word| == 1 ==> s.data == old(s.data)
      ensures !InInit(s, t) ==> NotInInit(t)
    {
      hide IsRun, Inv, Apply, Enabled;
      for k := 0 to |others|
        invariant GoesOn() && s.thr[t] == old(s.thr[t])
        invariant Winner(s.thr[t].pc) || |s.word| == 1 ==> s.data == old(s.data)
        invariant !InInit(s, t) ==> NotInInit(t)
      {
        if others[k].t != t && Enabled(s, others[k]) {
          DataStay(s, others[k], t);
          SharedEffect(s, others[k]);
          Do(others[k]);
        }
      }
    }

    /** The thread's turn comes, others having gone before. */
    method Turn(t: nat) returns (r: Progress<nat>)
      requires Valid() && t < |s.thr|
      modifies this
      ensures GoesOn() && s.thr[t] == old(s.thr[t])
      ensures Winner(s.thr[t].pc) || |s.word| == 1 ==> s.data == old(s.data)
      ensures !InInit(s, t) ==> NotInInit(t)
      ensures if r.Preempted? then schedule == old(schedule) == [] && s == old(s) else |schedule| == |old(schedule)| - 1
    {
      if schedule == [] {
        return Preempted;
      }
      var slot := schedule[0];
      schedule := schedule[1..];
      LetOthersRun(t, slot.others);
      return Went(slot.i);
    }

    method Begin(t: nat, kind: Kind)
      requires Valid() && t < |s.thr| && s.thr[t].pc.Idle? && s.thr[t].calls > 0
      modifies this`s, this`run, this`acts
      ensures GoesOn() && NotInInit(t) && s.word == old(s.word) && s.data == old(s.data)
      ensures s.thr[t] == old(s.thr[t]).(pc := Cas(kind), calls := old(s.thr[t]).calls - 1)
    {
      Do(Act(t, Call(kind)));
    }

    /** __mulle_atomic_pointer_cas: what it saw. */
    method CompareAndSwap(t: nat, value: int, expected: int) returns (r: Progress<int>)
      requires Valid() && t < |s.thr|
      requires || (s.thr[t].pc.Cas? && value == BUSY && expected == DATA)
               || (s.thr[t].pc.Publish? && value == DONE && expected == BUSY)
      modifies this
      ensures GoesOn()
      ensures r.Went? ==>
        s.thr[t].pc == if old(s.thr[t].pc).Cas? then AfterCas(old(s.thr[t].pc).kind, r.value, s.initLen)
                       else Returned(old(s.thr[t].pc).kind)
      ensures r.Went? ==> s.thr[t].calls == old(s.thr[t].calls)
      ensures r.Went? && old(s.thr[t].pc).Cas? && r.value == DATA ==>
        |old(s.word)| == 1 && |s.word| == 2 && s.data == old(s.data) && InInit(run[|run| - 1], t)
      ensures r.Went? && old(s.thr[t].pc).Publish? ==> |s.word| == 3 && s.data == old(s.data)
      ensures r.Went? && r.value != DATA ==> |s.word| >= 2 && NotInInit(t)
      ensures r.Went? && old(SeenAll(s, s.thr[t])) ==> r.value == DONE
      ensures if r.Preempted? then schedule == old(schedule) == [] && s == old(s) else |schedule| == |old(schedule)| - 1
    {
      hide IsRun, Inv, Apply;
      Known(t);
      var i :- Turn(t);
      Known(t);
      if !MayCas(s, t, expected, i) {
        i := |s.word| - 1;
      }
      var actual := s.word[i].value;
      CasShows(s, t, i);
      Do(Act(t, Go(i)));
      return Went(actual);
    }

    lemma Known(t: nat)
      requires Valid() && t < |s.thr|
      ensures GoodWord(s) && ThreadInv(s, s.thr[t])
    {
    }

    /** _mulle_atomic_pointer_read */
    method Read(t: nat) returns (r: Progress<int>)
      requires Valid() && t < |s.thr| && s.thr[t].pc.Spin?
      modifies this
      ensures GoesOn() && NotInInit(t) && s.thr[t].calls == old(s.thr[t].calls)
      ensures r.Went? ==> s.thr[t].pc == if r.value == DONE then SpinBarrier else Spin
      ensures if r.Preempted? then schedule == old(schedule) == [] && s == old(s) else |schedule| == |old(schedule)| - 1
    {
      hide IsRun, Inv;
      var i :- Turn(t);
      Known(t);
      if !MayRead(s, t, i) {
        i := |s.word| - 1;
      }
      var value := s.word[i].value;
      Do(Act(t, Go(i)));
      return Went(value);
    }

    /** The init function: it writes `values`, nobody else writes between, and returns. */
    method RunInit(t: nat, values: seq<int>) returns (r: Progress<()>)
      requires Valid() && t < |s.thr| && s.thr[t].pc.Body? && |values| <= s.thr[t].pc.left
      modifies this
      ensures GoesOn() && s.thr[t].calls == old(s.thr[t].calls)
      ensures r.Went? ==> s.thr[t].pc == Barrier(old(s.thr[t].pc).kind) && |schedule| == |old(schedule)| - |values|
      ensures r.Went? ==> s.data == old(s.data) + values
      ensures r.Preempted? ==> schedule == [] && |old(schedule)| < |values|
    {
      hide IsRun, Inv;
      var kind := s.thr[t].pc.kind;
      for k := 0 to |values|
        invariant GoesOn() && s.thr[t].calls == old(s.thr[t].calls)
        invariant s.thr[t].pc.Body? && s.thr[t].pc.kind == kind && |values| - k <= s.thr[t].pc.left
        invariant s.data == old(s.data) + values[..k] && |schedule| == |old(schedule)| - k
      {
        var _ :- Turn(t);
        Do(Act(t, Write(values[k])));
        assert values[..k + 1] == values[..k] + [values[k]];
      }
      assert values[..|values|] == values;
      Do(Act(t, Leave));
      return Went(());
    }

    /** mulle_atomic_memory_barrier */
    method Fence(t: nat)
      requires Valid() && t < |s.thr| && (s.thr[t].pc.Barrier? || s.thr[t].pc.SpinBarrier?)
      modifies this`s, this`run, this`acts
      ensures GoesOn() && NotInInit(t) && s.data == old(s.data) && s.thr[t].calls == old(s.thr[t].calls)
      ensures s.thr[t].pc == if old(s.thr[t].pc).Barrier? then Publish(old(s.thr[t].pc).kind) else Returned(Blocking)
    {
      Do(Act(t, Go(0)));
    }

    /** The call returns: what it then knows. */
    method Finish(t: nat)
      requires Valid() && t < |s.thr| && s.thr[t].pc.Returned?
      modifies this`s, this`run, this`acts
      ensures GoesOn() && NotInInit(t) && s.thr[t].pc.Idle? && s.thr[t].calls == old(s.thr[t].calls)
      ensures old(s.thr[t].pc).kind.Blocking? ==> SeenAll(s, s.thr[t])
      ensures s.word == old(s.word) && s.data == old(s.data)
    {
      Known(t);
      Do(Act(t, Leave));
    }
  }

  /** What a call may ask for: the thread is outside, still has calls to make, and init is as long as said. */
  ghost predicate MayCall(m: Memory, t: nat, init: seq<int>)
    reads m
  {
    m.Valid() && t < |m.s.thr| && m.s.thr[t].pc.Idle? && m.s.thr[t].calls > 0 && |init| <= m.s.initLen
  }

  /** What the winner of the first compare-and-swap does. */
  method RunAndPublish(m: Memory, t: nat, init: seq<int>) returns (r: Progress<()>)
    requires m.Valid() && t < |m.s.thr| && m.s.thr[t].pc.Body? && |init| <= m.s.thr[t].pc.left
    modifies m
    ensures m.GoesOn()
    ensures r.Went? ==> m.s.thr[t] == m.s.thr[t].(pc := Returned(old(m.s.thr[t].pc).kind),
        calls := old(m.s.thr[t].calls))
    ensures r.Went? ==> m.s.data == old(m.s.data) + init && |m.s.word| == 3
    ensures if r.Preempted? then m.schedule == [] && |old(m.schedule)| < |init| + 1
            else |m.schedule| == |old(m.schedule)| - |init| - 1
  {
    hide IsRun, Apply, Enabled, Inv, Memory.Valid;
    var _ :- m.RunInit(t, init);
    m.Fence(t);
    var _ :- m.CompareAndSwap(t, DONE, BUSY);
    return Went(());
  }

  /** What everybody else does: spin until DONE. */
  method WaitForDone(m: Memory, t: nat) returns (r: Progress<()>)
    requires m.Valid() && t < |m.s.thr| && m.s.thr[t].pc.Spin?
    modifies m
    ensures m.GoesOn() && m.NotInInit(t) && m.s.thr[t].calls == old(m.s.thr[t].calls)
    ensures r.Went? ==> m.s.thr[t].pc == Returned(Blocking)
    ensures r.Preempted? ==> m.schedule == [] && m.s.thr[t].pc.Spin?
  {
    hide IsRun, Apply, Enabled, Inv, Memory.Valid;
    var value :- m.Read(t);
    while value != DONE
      invariant m.GoesOn() && m.NotInInit(t) && m.s.thr[t].calls == old(m.s.thr[t].calls)
      invariant m.s.thr[t].pc == if value == DONE then SpinBarrier else Spin
      decreases |m.schedule|
    {
      value :- m.Read(t);
    }
    m.Fence(t);
    return Went(());
  }

  /** mulle_thread_once, and mulle_thread_once_call with the argument already in init. A returning call has
      seen all of init; `won` tells whether it ran it, and if so all that is written is what was there and
      what it wrote. Only a spinning one is ever given up, if the schedule has a slot for every access of
      a winner; and a thread that has returned from the flag before does not wait at all. */
  method ThreadOnce(m: Memory, t: nat, init: seq<int>) returns (r: Progress<()>, ghost won: bool)
    requires MayCall(m, t, init)
    modifies m
    ensures m.GoesOn()
    ensures r.Went? ==>
      m.s.thr[t].pc.Idle? && m.s.thr[t].calls == old(m.s.thr[t].calls) - 1 && SeenAll(m.s, m.s.thr[t])
    ensures r.Went? ==> (won <==> RanInit(m.run, t, |old(m.run)|))
    ensures r.Went? && won ==> |old(m.s.word)| == 1 && m.s.data == old(m.s.data) + init
    ensures r.Preempted? ==> m.schedule == []
    ensures r.Preempted? && |old(m.schedule)| >= |init| + 2 ==> m.s.thr[t].pc.Spin?
    ensures old(m.schedule) != [] && old(SeenAll(m.s, m.s.thr[t])) ==> r.Went?
  {
    hide IsRun, Apply, Enabled, Inv, RanInit;
    won := false;
    m.Begin(t, Blocking);
    var swapped := m.CompareAndSwap(t, BUSY, DATA);
    if swapped.Preempted? {
      return Preempted, won;
    }
    var actual := swapped.value;
    if actual == DONE {
      m.Finish(t);
      NeverRan(m.run, t, |old(m.run)|);
      return Went(()), won;
    }
    if actual != DATA {
      var waited := WaitForDone(m, t);
      if waited.Preempted? {
        return Preempted, won;
      }
      m.Finish(t);
      NeverRan(m.run, t, |old(m.run)|);
      return Went(()), won;
    }
    won := true;
    ghost var entered := m.run;
    RunsNow(entered, t, |old(m.run)|);
    var published := RunAndPublish(m, t, init);
    if published.Preempted? {
      return Preempted, won;
    }
    m.Finish(t);
    StillRan(entered, m.run, t, |old(m.run)|);
    return Went(()), won;
  }

  lemma NeverRan(run: seq<State>, t: nat, past: nat)
    requires forall k :: past <= k < |run| ==> !InInit(run[k], t)
    ensures !RanInit(run, t, past)
  {
  }

  lemma RunsNow(run: seq<State>, t: nat, past: nat)
    requires past < |run| && InInit(run[|run| - 1], t)
    ensures RanInit(run, t, past)
  {
  }

  /** mulle_thread_once_noblock and mulle_thread_once_call_noblock; returns whether it ran init. It never
      waits: a slot for every access of a winner is enough for it. */
  method ThreadOnceNoblock(m: Memory, t: nat, init: seq<int>) returns (r: Progress<bool>)
    requires MayCall(m, t, init)
    modifies m
    ensures m.GoesOn()
    ensures r.Went? ==> m.s.thr[t].pc.Idle? && m.s.thr[t].calls == old(m.s.thr[t].calls) - 1
    ensures r.Went? ==> (r.value <==> RanInit(m.run, t, |old(m.run)|))
    ensures r == Went(true) ==> |m.s.word| == 3 && |old(m.s.word)| == 1 && m.s.data == old(m.s.data) + init
    ensures r == Went(false) ==> |m.s.word| >= 2
    ensures |old(m.schedule)| >= |init| + 2 ==> r.Went?
    ensures r.Preempted? ==> m.schedule == []
  {
    hide IsRun, Apply, Enabled, Inv, RanInit;
    m.Begin(t, NonBlocking);
    var actual :- m.CompareAndSwap(t, BUSY, DATA);
    if actual == DATA {
      ghost var entered := m.run;
      RunsNow(entered, t, |old(m.run)|);
      var _ :- RunAndPublish(m, t, init);
      m.Finish(t);
      StillRan(entered, m.run, t, |old(m.run)|);
      return Went(true);
    }
    m.Finish(t);
    NeverRan(m.run, t, |old(m.run)|);
    return Went(false);
  }
}
