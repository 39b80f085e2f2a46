/** mulle_thread_cond_wait and mulle_thread_cond_timedwait of the Windows backend in the shape of the
    source, running on the machine of module WindowsMutex under every schedule. */
module CondWaitCode {
  import opened Words
  import opened ThreadIds
  import opened Scheduling
  import opened WindowsMutex

  /** What the others do before a thread's next step, and how its sleep ends if it is asleep. */
  datatype Slot = Slot(others: seq<Act>, ending: Ending)

  class Memory {
    var s: State
    var schedule: seq<Slot>
    ghost var run: seq<State>
    ghost var acts: seq<Act>

    ghost predicate Valid()
      reads this
    {
      IsRun(run, acts) && run[|acts|] == s && Inv(s) && |s.thr| == |s.ids|
    }

    /** The run goes on from where it was. */
    twostate predicate GoesOn()
      reads this
    {
      Valid() && old(run) <= run && old(acts) <= acts && s.ids == old(s.ids) && |s.thr| == |old(s.thr)|
    }

    ghost predicate At(t: nat, pc: PC)
      reads this
    {
      Valid() && t < |s.thr| && s.thr[t].pc == pc
    }

    constructor (start: State, schedule: seq<Slot>)
      requires Init(start)
      ensures Valid() && s == start && this.schedule == schedule && acts == []
    {
      RunKeepsInv([start], []);
      s, run, acts := start, [start], [];
      this.schedule := schedule;
    }

    method Do(a: Act)
      requires Valid() && Enabled(s, a)
      modifies this`s, this`run, this`acts
      ensures Valid() && s == Apply(old(s), a) && acts == old(acts) + [a] && run == old(run) + [s]
      ensures |s.thr| == |old(s.thr)| && s.ids == old(s.ids)
      ensures forall u :: 0 <= u < |s.thr| && u != a.t ==> s.thr[u] == old(s.thr[u])
    {
      StepKeepsInv(s, a);
      s := Apply(s, a);
      run, acts := run + [s], acts + [a];
    }

    method Others(t: nat) returns (r: Progress<Ending>)
      requires Valid() && t < |s.thr|
      modifies this
      ensures GoesOn() && s.thr[t] == old(s.thr[t])
      ensures |run| > 0 && run[|run| - 1] == s
      ensures if r.Preempted? then schedule == old(schedule) == [] else |schedule| == |old(schedule)| - 1
    {
      if schedule == [] {
        return Preempted;
      }
      var slot := schedule[0];
      schedule := schedule[1..];
      hide Inv, IsRun, Apply;
      for k := 0 to |slot.others|
        invariant GoesOn() && s.thr[t] == old(s.thr[t]) && |schedule| == |old(schedule)| - 1
      {
        if slot.others[k].t != t && Enabled(s, slot.others[k]) {
          Do(slot.others[k]);
        }
      }
      return Went(slot.ending);
    }

    /** The wait is called, by the holder. */
    method Begin(t: nat, timed: bool)
      requires Valid() && t < |s.thr| && s.thr[t].pc.Idle? && Holds(s, t)
      modifies this`s, this`run, this`acts
      ensures At(t, WaitClear(timed)) && GoesOn()
    {
      Do(Act(t, CallWait(timed)));
    }

    method WriteOwner(t: nat, value: Word) returns (r: Progress<()>)
      requires Valid() && t < |s.thr| && (s.thr[t].pc.WaitClear? || s.thr[t].pc.WaitRestore?)
      requires value == if s.thr[t].pc.WaitClear? then 0 else Id(s.ids, t)
      modifies this
      ensures GoesOn()
      ensures if r.Preempted? then schedule == old(schedule) == [] else |schedule| == |old(schedule)| - 1
      ensures r.Went? ==> |s.owner| > 0 && s.owner[|s.owner| - 1] == value && s.section == Held(t, 1)
      ensures r.Went? ==> s.thr[t].pc == if old(s.thr[t]).pc.WaitClear? then WaitSleep(old(s.thr[t]).pc.timed)
              else Idle(ResultOf(old(s.thr[t]).pc.timed, old(s.thr[t]).pc.ending))
    {
      var _ :- Others(t);
      assert ThreadInv(s, t);
      Do(Act(t, Go(0)));
      return Went(());
    }

    /** The write behind the sleep, which the thread may have been held up in. */
    method RestoreOwner(t: nat, ghost past: nat) returns (r: Progress<()>)
      requires Valid() && t < |s.thr| && s.thr[t].pc.WaitRestore?
      modifies this
      ensures GoesOn()
      ensures r.Preempted? ==> schedule == old(schedule) == []
      ensures r.Went? ==> |s.owner| > 0 && s.owner[|s.owner| - 1] == Id(s.ids, t) && s.section == Held(t, 1)
      ensures r.Went? ==> s.thr[t].pc == Idle(ResultOf(old(s.thr[t]).pc.timed, old(s.thr[t]).pc.ending))
      ensures old(HeldUp(run, t, past)) ==> HeldUp(run, t, past)
      ensures old(HasSlept(run, t, past)) ==> HasSlept(run, t, past)
    {
      hide Memory.Valid, Inv, IsRun, Apply, HeldUp, HasSlept;
      ghost var before := run;
      assert t < |s.ids| by { LengthFacts(t); }
      r := WriteOwner(t, Id(s.ids, t));
      if HeldUp(before, t, past) { StillHeldUp(before, run, t, past); }
      if HasSlept(before, t, past) { StillSlept(before, run, t, past); }
    }

    lemma LengthFacts(t: nat)
      requires Valid() && t < |s.thr|
      ensures t < |s.ids|
    {
    }

    /** SleepConditionVariableCS: gives up the section, which it holds once, sleeps, and takes the section
        again however the sleep ended. Only another thread in the section makes that take more than the
        two slots. */
    method Sleep(t: nat, timed: bool, ghost past: nat) returns (r: Progress<Ending>)
      requires At(t, WaitSleep(timed)) && past <= |run|
      modifies this
      ensures GoesOn()
      ensures r.Went? ==> s.thr[t].pc == WaitRestore(timed, r.value) && WokenBy(acts, t, r.value, |old(acts)|)
      ensures r.Went? ==> HasSlept(run, t, past)
      ensures r.Went? && |schedule| != |old(schedule)| - 2 ==> HeldUp(run, t, past)
      ensures r.Preempted? ==> schedule == [] && (|old(schedule)| >= 2 ==> HeldUp(run, t, past))
    {
      hide Inv, IsRun, HeldUp, HasSlept;
      var _ :- Others(t);
      GoToSleep(t);
      ghost var asleep := run;
      SleepsNow(run, t, past);
      var ending :- Others(t);
      Do(Act(t, Wake(ending)));
      ghost var woken := acts;
      WokenNow(woken, t, ending, |old(acts)|);
      hide Apply;
      var _ :- Reacquire(t, past);
      StillSlept(asleep, run, t, past);
      StillWoken(woken, acts, t, ending, |old(acts)|);
      return Went(ending);
    }

    method GoToSleep(t: nat)
      requires Valid() && t < |s.thr| && s.thr[t].pc.WaitSleep?
      modifies this`s, this`run, this`acts
      ensures At(t, Asleep(old(s.thr[t]).pc.timed)) && GoesOn()
      ensures old(s).section == Held(t, 1) && s.section.Free? && run == old(run) + [s]
    {
      assert ThreadInv(s, t);
      Do(Act(t, Go(0)));
    }

    method Reacquire(t: nat, ghost past: nat) returns (r: Progress<()>)
      requires Valid() && t < |s.thr| && s.thr[t].pc.Reacquire? && past < |run| && run[|run| - 1] == s
      modifies this
      ensures GoesOn()
      ensures r.Went? ==> At(t, WaitRestore(old(s.thr[t]).pc.timed, old(s.thr[t]).pc.ending))
      ensures r.Preempted? ==> schedule == []
      ensures r.Preempted? || schedule != old(schedule) ==> HeldUp(run, t, past)
    {
      hide Memory.Valid, Inv, IsRun, Apply, HeldUp, HeldUpAt;
      ghost var held := false;
      while !CanEnter(s, t)
        invariant At(t, old(s.thr[t]).pc) && GoesOn() && past < |run| && run[|run| - 1] == s
        invariant if held then HeldUp(run, t, past) else schedule == old(schedule)
        decreases |schedule|
      {
        WaitsNow(run, s, t);
        HeldUpNow(run, t, past);
        held := true;
        ghost var before := run;
        var waited := Others(t);
        StillHeldUp(before, run, t, past);
        var _ :- waited;
      }
      ghost var before := run;
      Reacquired(t);
      if held { StillHeldUp(before, run, t, past); }
      return Went(());
    }

    method Reacquired(t: nat)
      requires Valid() && t < |s.thr| && s.thr[t].pc.Reacquire? && CanEnter(s, t)
      modifies this`s, this`run, this`acts
      ensures At(t, WaitRestore(old(s.thr[t]).pc.timed, old(s.thr[t]).pc.ending)) && GoesOn() && run == old(run) + [s]
    {
      assert |s.ids| == |s.thr|;
      Do(Act(t, Go(0)));
    }
  }

  /** In one of the states from `past` on, t sleeps. */
  ghost predicate HasSlept(run: seq<State>, t: nat, past: nat) {
    exists k :: past <= k < |run| && SleepsIn(run[k], t)
  }

  predicate SleepsIn(s: State, t: nat) {
    t < |s.thr| && s.thr[t].pc.Asleep?
  }

  lemma SleepsNow(run: seq<State>, t: nat, past: nat)
    requires past < |run| && SleepsIn(run[|run| - 1], t)
    ensures HasSlept(run, t, past)
  {
  }

  lemma StillSlept(run: seq<State>, run': seq<State>, t: nat, past: nat)
    requires run <= run' && HasSlept(run, t, past)
    ensures HasSlept(run', t, past)
  {
    var k :| past <= k < |run| && SleepsIn(run[k], t);
    assert SleepsIn(run'[k], t);
  }

  /** In one of the states from `past` on, t has been woken and finds another thread in the section. */
  ghost predicate HeldUp(run: seq<State>, t: nat, past: nat) {
    exists k :: past <= k < |run| && HeldUpAt(run, t, k)
  }

  ghost predicate HeldUpAt(run: seq<State>, t: nat, k: nat) {
    k < |run| && t < |run[k].thr| && run[k].thr[t].pc.Reacquire? && !CanEnter(run[k], t)
  }

  lemma WaitsNow(run: seq<State>, s: State, t: nat)
    requires |run| > 0 && run[|run| - 1] == s && t < |s.thr| && s.thr[t].pc.Reacquire? && !CanEnter(s, t)
    ensures HeldUpAt(run, t, |run| - 1)
  {
  }

  lemma HeldUpNow(run: seq<State>, t: nat, past: nat)
    requires past < |run| && HeldUpAt(run, t, |run| - 1)
    ensures HeldUp(run, t, past)
  {
  }

  lemma StillHeldUp(run: seq<State>, run': seq<State>, t: nat, past: nat)
    requires run <= run' && HeldUp(run, t, past)
    ensures HeldUp(run', t, past)
  {
    var k :| past <= k < |run| && HeldUpAt(run, t, k);
    assert HeldUpAt(run', t, k);
  }

  /** From action `past` on, t was woken, and this is how its sleep ended. */
  ghost predicate WokenBy(acts: seq<Act>, t: nat, ending: Ending, past: nat) {
    exists k :: past <= k < |acts| && acts[k] == Act(t, Wake(ending))
  }

  lemma WokenNow(acts: seq<Act>, t: nat, ending: Ending, past: nat)
    requires past < |acts| && acts[|acts| - 1] == Act(t, Wake(ending))
    ensures WokenBy(acts, t, ending, past)
  {
  }

  lemma StillWoken(acts: seq<Act>, acts': seq<Act>, t: nat, ending: Ending, past: nat)
    requires acts <= acts' && WokenBy(acts, t, ending, past)
    ensures WokenBy(acts', t, ending, past)
  {
    var k :| past <= k < |acts| && acts[k] == Act(t, Wake(ending));
    assert acts'[k] == Act(t, Wake(ending));
  }

  lemma WokenSince(acts: seq<Act>, t: nat, ending: Ending, past: nat, earlier: nat)
    requires WokenBy(acts, t, ending, past) && earlier <= past
    ensures WokenBy(acts, t, ending, earlier)
  {
  }

  /** 0 if and only if the sleep ended by a success, and else -1; `slept` is how it ended. */
  method CondWait(m: Memory, t: nat) returns (r: Progress<int>, ghost slept: Ending)
    requires m.Valid() && t < |m.s.thr| && m.s.thr[t].pc.Idle? && Holds(m.s, t)
    modifies m
    ensures m.GoesOn()
    ensures r.Went? ==> m.At(t, Idle(r.value))
    ensures r.Went? ==> WokenBy(m.acts, t, slept, |old(m.acts)|) && HasSlept(m.run, t, |old(m.run)|)
    ensures r.Went? ==> (r.value == 0 <==> slept.Success?) && (r.value == -1 <==> slept.TimedOut? || slept.Failed?)
    ensures r.Went? ==> m.s.section == Held(t, 1) && |m.s.owner| > 0 && m.s.owner[|m.s.owner| - 1] == Id(m.s.ids, t)
    ensures r.Preempted? ==> m.schedule == [] && (|old(m.schedule)| >= 4 ==> HeldUp(m.run, t, |old(m.run)|))
  {
    hide Inv, IsRun, Apply, HeldUp, HasSlept, WokenBy;
    slept := Failed;
    m.Begin(t, false);
    var cleared := m.WriteOwner(t, 0);
    if cleared.Preempted? {
      return Preempted, slept;
    }
    ghost var before := m.acts;
    var sleep := m.Sleep(t, false, |old(m.run)|);
    if sleep.Preempted? {
      return Preempted, slept;
    }
    slept := sleep.value;
    WokenSince(m.acts, t, slept, |before|, |old(m.acts)|);
    ghost var woken := m.acts;
    var result := if sleep.value.Success? then 0 else -1;
    var restored := m.RestoreOwner(t, |old(m.run)|);
    if restored.Preempted? {
      return Preempted, slept;
    }
    StillWoken(woken, m.acts, t, slept, |old(m.acts)|);
    return Went(result), slept;
  }

  /** 0, ETIMEDOUT or -1, exactly as the sleep ended; the milliseconds to sleep are the business of TimedWait. */
  method CondTimedWait(m: Memory, t: nat) returns (r: Progress<int>, ghost slept: Ending)
    requires m.Valid() && t < |m.s.thr| && m.s.thr[t].pc.Idle? && Holds(m.s, t)
    modifies m
    ensures m.GoesOn()
    ensures r.Went? ==> m.At(t, Idle(r.value))
    ensures r.Went? ==> WokenBy(m.acts, t, slept, |old(m.acts)|) && HasSlept(m.run, t, |old(m.run)|)
    ensures r.Went? ==> (r.value == 0 <==> slept.Success?) && (r.value == -1 <==> slept.Failed?)
    ensures r.Went? ==> (r.value == ETIMEDOUT <==> slept.TimedOut?)
    ensures r.Went? ==> m.s.section == Held(t, 1) && |m.s.owner| > 0 && m.s.owner[|m.s.owner| - 1] == Id(m.s.ids, t)
    ensures r.Preempted? ==> m.schedule == [] && (|old(m.schedule)| >= 4 ==> HeldUp(m.run, t, |old(m.run)|))
  {
    hide Inv, IsRun, Apply, HeldUp, HasSlept, WokenBy;
    slept := Failed;
    m.Begin(t, true);
    var cleared := m.WriteOwner(t, 0);
    if cleared.Preempted? {
      return Preempted, slept;
    }
    ghost var before := m.acts;
    var sleep := m.Sleep(t, true, |old(m.run)|);
    if sleep.Preempted? {
      return Preempted, slept;
    }
    slept := sleep.value;
    WokenSince(m.acts, t, slept, |before|, |old(m.acts)|);
    ghost var woken := m.acts;
    var restored := m.RestoreOwner(t, |old(m.run)|);
    if restored.Preempted? {
      return Preempted, slept;
    }
    StillWoken(woken, m.acts, t, slept, |old(m.acts)|);
    if !sleep.value.Success? {
      if sleep.value.TimedOut? {
        return Went(ETIMEDOUT), slept;
      }
      return Went(-1), slept;
    }
    return Went(0), slept;
  }
}
