/** The recursive mutex and the Windows mutex below it, in the shape of mulle-thread.c and
    mulle-thread-windows.h, running on the machine of module RecursiveMutex. What is promised holds for
    every schedule: every interference by other threads and every choice of stale message. */
module RecursiveMutexCode {
  import opened Words
  import opened ThreadIds
  import opened Scheduling
  import opened RecursiveMutex
  import W = WindowsMutex

  /** A thread's program points in both layers, whether it has the critical section, and how often it
      holds the lock by its own account. */
  datatype Where = Where(pc: PC, wpc: W.PC, inSection: bool, held: nat)

  /** Where a read of `_thread_id` leads. */
  function AfterRead(was: Where): Where {
    match was.pc
    case LockAssert => was.(pc := WriteId(Lock))
    case UnlockAssert => was.(pc := UnlockDecrement)
    case LockReadId => if was.inSection then was.(pc := Increment(Lock)) else was.(pc := LockMutex, wpc := W.LockRead)
    case _ => if was.inSection then was.(pc := Increment(TryLock)) else was.(pc := TryMutex, wpc := W.TryRead)
  }

  function WhereIs(s: State, t: nat): Where
    requires t < |s.thr| == |s.w.thr|
  {
    Where(s.thr[t].pc, s.w.thr[t].pc, W.Holds(s.w, t), s.thr[t].held)
  }

  /** What a thread may read in `_thread_id`, be it stale, and where it goes from there. */
  lemma ReadShows(s: State, t: nat, i: nat)
    requires Inv(s) && Enabled(s, Act(t, Go(i))) && s.thr[t].pc in {LockReadId, TryReadId, LockAssert, UnlockAssert}
    ensures i < |s.tid| && |Apply(s, Act(t, Go(i))).thr| == |s.thr| == |Apply(s, Act(t, Go(i))).w.thr|
    ensures s.thr[t].pc.LockAssert? ==> s.tid[i] == 0
    ensures s.thr[t].pc.UnlockAssert? ==> s.tid[i] == Id(s.w.ids, t)
    ensures (s.thr[t].pc.LockReadId? || s.thr[t].pc.TryReadId?) ==> (s.tid[i] == Id(s.w.ids, t) <==> W.Holds(s.w, t))
    ensures WhereIs(Apply(s, Act(t, Go(i))), t) == AfterRead(WhereIs(s, t))
  {
    InvFacts(s, t);
    hide W.Inv, Inv;
  }

  /** In one of the states of the run from `past` on, t is held up by another thread in the section. */
  ghost predicate WasHeldUp(run: seq<State>, t: nat, past: nat) {
    exists k :: past <= k < |run| && HeldUp(run[k], t)
  }

  lemma StillHeldUp(run: seq<State>, run': seq<State>, t: nat, past: nat)
    requires run <= run' && WasHeldUp(run, t, past)
    ensures WasHeldUp(run', t, past)
  {
    var k :| past <= k < |run| && HeldUp(run[k], t);
    assert HeldUp(run'[k], t);
  }

  /** In one of the states of the run from `past` on, t tries to enter while another thread is in the section. */
  ghost predicate WasBusy(run: seq<State>, t: nat, past: nat) {
    exists k :: past <= k < |run| && FindsBusy(run[k], t)
  }

  predicate FindsBusy(s: State, t: nat) {
    && t < |s.thr| == |s.w.thr| && s.thr[t].pc.TryMutex? && s.w.thr[t].pc.TryEnter?
    && s.w.section.Held? && s.w.section.holder != t
  }

  lemma StillBusy(run: seq<State>, run': seq<State>, t: nat, past: nat)
    requires run <= run' && WasBusy(run, t, past)
    ensures WasBusy(run', t, past)
  {
    var k :| past <= k < |run| && FindsBusy(run[k], t);
    assert FindsBusy(run'[k], t);
  }

  /** The abstract lock is t's, n times. */
  predicate HeldIn(s: State, t: nat, n: nat) {
    t < |s.thr| && s.thr[t].pc.Idle? && LockOf(s.w.section, s.depth) == AHeld(t, n)
  }

  /** One after the other, the states of the run at the places `at`, all from `past` on, show the statements
      visited, each with the lock held by t once more than the one around it, and the outermost `base` times. */
  ghost predicate Shown(run: seq<State>, t: nat, visits: seq<Path>, base: nat, at: seq<nat>, past: nat) {
    && |at| == |visits|
    && (forall k :: 0 <= k < |at| ==> past <= at[k] < |run| && HeldIn(run[at[k]], t, base + |visits[k]|))
    && (forall j, k :: 0 <= j < k < |at| ==> at[j] < at[k])
  }

  lemma ShownFurther(run: seq<State>, run': seq<State>, t: nat, visits: seq<Path>, base: nat, at: seq<nat>, past: nat)
    requires run <= run' && Shown(run, t, visits, base, at, past)
    ensures Shown(run', t, visits, base, at, past)
  {
    hide HeldIn;
    assert forall k :: 0 <= k < |at| ==> run'[at[k]] == run[at[k]];
  }

  lemma ShownBoth(run: seq<State>, run': seq<State>, t: nat, visits: seq<Path>, base: nat, at: seq<nat>,
                  i: nat, visits': seq<Path>, at': seq<nat>, past: nat)
    requires run <= run' && past <= |run| && Shown(run, t, visits, base, at, past)
    requires Shown(run', t, visits', base + 1, at', |run|)
    ensures Shown(run', t, visits + Under(i, visits'), base, at + at', past)
  {
    hide HeldIn;
    assert forall k :: 0 <= k < |at| ==> run'[at[k]] == run[at[k]];
  }

  lemma HeldUpNow(run: seq<State>, t: nat, past: nat)
    requires past < |run| && HeldUp(run[|run| - 1], t)
    ensures WasHeldUp(run, t, past)
  {
  }

  predicate Entering(s: State, t: nat) {
    t < |s.thr| == |s.w.thr| && s.thr[t].pc.LockMutex? && s.w.thr[t].pc.LockEnter?
  }

  /** What a thread may read in `owner`, be it stale, and where it goes from there. */
  lemma OwnerReadShows(s: State, t: nat, i: nat)
    requires Inv(s) && Enabled(s, Act(t, Go(i))) && InMutexCall(s.thr[t].pc)
    requires s.w.thr[t].pc in {W.LockRead, W.TryRead, W.UnlockAssert}
    ensures i < |s.w.owner| && |Apply(s, Act(t, Go(i))).thr| == |s.thr| == |Apply(s, Act(t, Go(i))).w.thr|
    ensures s.w.owner[i] == Id(s.w.ids, t) <==> s.w.thr[t].pc.UnlockAssert?
    ensures WhereIs(Apply(s, Act(t, Go(i))), t) == WhereIs(s, t).(wpc := match s.w.thr[t].pc
                                                                         case LockRead => W.LockEnter
                                                                         case TryRead => W.TryEnter
                                                                         case _ => W.UnlockClear)
  {
    InvFacts(s, t);
    InsideFacts(s.w, t, i);
    hide W.Inv, Inv;
  }

  /** Whether the section is free decides where a trying thread goes. */
  lemma TryEnterShows(s: State, t: nat, i: nat)
    requires Inv(s) && Enabled(s, Act(t, Go(i))) && s.thr[t].pc.TryMutex? && s.w.thr[t].pc.TryEnter?
    ensures var s' := Apply(s, Act(t, Go(i)));
      && |s'.thr| == |s.thr| == |s'.w.thr|
      && (if s.w.section.Free? then WhereIs(s', t) == WhereIs(s, t).(wpc := W.TryWrite, inSection := true)
          else FindsBusy(s, t)
               && WhereIs(s', t) == WhereIs(s, t).(pc := Returning(TryLock, -1), wpc := W.Idle(W.EBUSY)))
  {
    InvFacts(s, t);
    InsideFacts(s.w, t, i);
    hide W.Inv, Inv;
  }

  /** What a write of `_thread_id` does to the newest value, and where the thread goes from there. */
  lemma IdWriteShows(s: State, t: nat, i: nat)
    requires Inv(s) && Enabled(s, Act(t, Go(i))) && (s.thr[t].pc.WriteId? || s.thr[t].pc.UnlockClearId?)
    ensures var s' := Apply(s, Act(t, Go(i)));
      && |s'.thr| == |s.thr| == |s'.w.thr| && |s'.tid| > 0
      && s'.tid[|s'.tid| - 1] == (if s.thr[t].pc.WriteId? then Id(s.w.ids, t) else 0)
      && WhereIs(s', t) ==
         if s.thr[t].pc.WriteId? then WhereIs(s, t).(pc := Increment(s.thr[t].pc.op))
         else WhereIs(s, t).(pc := UnlockMutex, wpc := W.UnlockAssert)
  {
    InvFacts(s, t);
    hide W.Inv, Inv;
  }

  datatype Slot = Slot(others: seq<Act>, i: nat)

  class Memory {
    var s: State
    var schedule: seq<Slot>
    ghost var run: seq<State>
    ghost var acts: seq<Act>

    ghost predicate Valid()
      reads this
    {
      IsRun(run, acts) && run[|acts|] == s && |s.thr| == |s.w.thr| == |s.w.ids|
    }

    constructor (start: State, schedule: seq<Slot>)
      requires Init(start)
      ensures Valid() && s == start && this.schedule == schedule && acts == []
    {
      s, run, acts := start, [start], [];
      this.schedule := schedule;
    }

    method Do(a: Act)
      requires Valid() && Enabled(s, a)
      modifies this`s, this`run, this`acts
      ensures Valid() && s == Apply(old(s), a) && acts == old(acts) + [a] && run == old(run) + [s]
          && |s.thr| == |old(s.thr)|
      ensures s.w.ids == old(s.w.ids)
      ensures forall u :: 0 <= u < |s.thr| && u != a.t ==>
        s.thr[u] == old(s.thr[u]) && s.w.thr[u] == old(s.w.thr[u]) && W.Holds(s.w, u) == W.Holds(old(s).w, u)
    {
      assert Inv(s) by { RunKeepsInv(run, acts); }
      StepEffect(s, a);
      s := Apply(s, a);
      run, acts := run + [s], acts + [a];
    }

    /** What no other thread's steps change for t. */
    twostate predicate SameFor(t: nat)
      reads this
    {
      && |s.thr| == |s.w.thr| == |old(s.thr)| == |old(s.w.thr)| && s.w.ids == old(s.w.ids) && t < |s.thr|
      && s.thr[t] == old(s.thr[t]) && s.w.thr[t] == old(s.w.thr[t]) && W.Holds(s.w, t) == W.Holds(old(s).w, t)
      && old(acts) <= acts && old(run) <= run
    }

    method LetOthersRun(t: nat, others: seq<Act>)
      requires Valid() && t < |s.thr|
      modifies this`s, this`run, this`acts
      ensures Valid() && SameFor(t)
    {
      for k := 0 to |others|
        invariant Valid() && SameFor(t)
      {
        if others[k].t != t && Enabled(s, others[k]) {
          Do(others[k]);
        }
      }
    }

    /** t's step `i` or the newest it may see, in state `from` and after t's last state `s0`. */
    twostate predicate Stepped(t: nat, from: State, i: nat)
      reads this
    {
      && t < |old(s.thr)| == |s.thr| == |s.w.thr| == |old(s.w.thr)| && s.w.ids == old(s.w.ids)
      && Inv(from) && |from.thr| == |from.w.thr| == |s.thr| && from.w.ids == s.w.ids
      && from.thr[t] == old(s.thr[t]) && from.w.thr[t] == old(s.w.thr[t]) && W.Holds(from.w, t) == W.Holds(old(s).w, t)
      && Enabled(from, Act(t, Go(i))) && s == Apply(from, Act(t, Go(i))) && Inv(s)
    }

    /** A slot of the schedule: the others go first, and then t if it is not held up. */
    method UseSlot(t: nat, slot: Slot) returns (done: bool, i: nat, from: State)
      requires Valid() && t < |s.thr| && !s.thr[t].pc.Idle? && !s.thr[t].pc.Returning?
      modifies this`s, this`run, this`acts
      ensures Valid() && old(acts) <= acts && old(run) <= run
      ensures if done then Stepped(t, from, i) else SameFor(t) && HeldUp(s, t) && run[|run| - 1] == s
      ensures done ==> |run| > |old(run)| && run[|run| - 2] == from
    {
      hide Inv, Apply, Enabled;
      LetOthersRun(t, slot.others);
      from, i := s, slot.i;
      if !Enabled(s, Act(t, Go(i))) {
        i := if InMutexCall(s.thr[t].pc) then s.w.thr[t].view else s.thr[t].view;
      }
      RunKeepsInv(run, acts);
      if Enabled(s, Act(t, Go(i))) {
        StepKeepsInv(s, Act(t, Go(i)));
        Do(Act(t, Go(i)));
        return true, i, from;
      }
      CanStepUnlessHeldUp(s, t);
      return false, i, from;
    }

    /** The thread's next access, when its turn has come and the access is not blocked; others go first.
        `from` is the state in which it is made. It takes one slot, or more while the thread is held up. */
    method Access(t: nat, ghost past: nat) returns (r: Progress<nat>, from: State)
      requires Valid() && t < |s.thr| && !s.thr[t].pc.Idle? && !s.thr[t].pc.Returning? && past < |run|
      modifies this
      ensures Valid() && old(acts) <= acts && old(run) <= run && |s.thr| == |old(s.thr)| && s.w.ids == old(s.w.ids)
      ensures r.Went? ==> Stepped(t, from, r.value) && |run| > |old(run)| && run[|run| - 2] == from
      ensures if r.Preempted? then schedule == [] else |schedule| < |old(schedule)|
      ensures old(schedule) != [] && (r.Preempted? || |schedule| != |old(schedule)| - 1) ==>
        old(Entering(s, t)) && WasHeldUp(run, t, past)
    {
      hide IsRun, Inv, Apply, Enabled, WasHeldUp;
      from := s;
      ghost var held := false;
      while schedule != []
        invariant Valid() && SameFor(t) && past < |run|
        invariant if held then WasHeldUp(run, t, past) && Entering(s, t) else schedule == old(schedule)
        invariant |schedule| <= |old(schedule)|
        decreases |schedule|
      {
        var slot := schedule[0];
        schedule := schedule[1..];
        ghost var before := run;
        var done, i;
        done, i, from := UseSlot(t, slot);
        if held { StillHeldUp(before, run, t, past); }
        if done {
          return Went(i), from;
        }
        HeldUpNow(run, t, past);
        held := true;
      }
      return Preempted, from;
    }

    ghost function Place(t: nat): Where
      reads this
      requires t < |s.thr| == |s.w.thr|
    {
      WhereIs(s, t)
    }

    ghost predicate Ready(t: nat)
      reads this
    {
      Valid() && t < |s.thr| && ThreadInv(s, t)
    }

    ghost predicate Past(acts0: seq<Act>, run0: seq<State>, ids: seq<Dword>)
      reads this
    {
      acts0 <= acts && run0 <= run && s.w.ids == ids
    }

    /** The thread is a client between calls. */
    ghost predicate Client(t: nat)
      reads this
    {
      Valid() && t < |s.thr| && s.thr[t].pc.Idle?
    }

    /** The abstract lock is t's as often as t counts, or not t's at all. */
    ghost predicate Accounted(t: nat)
      reads this
    {
      && Client(t)
      && var lock, held := LockOf(s.w.section, s.depth), s.thr[t].held;
      && (held > 0 ==> lock == AHeld(t, held))
      && (held == 0 ==> lock.AFree? || lock.owner != t)
    }

    // ---- the accesses of the Windows mutex ----

    method ReadOwner(t: nat) returns (r: Progress<Word>)
      requires Ready(t) && InMutexCall(s.thr[t].pc) && s.w.thr[t].pc in {W.LockRead, W.TryRead, W.UnlockAssert}
      modifies this
      ensures Valid() && Past(old(acts), old(run), old(s.w.ids)) && t < |s.thr|
      ensures if r.Preempted? then schedule == old(schedule) == [] else |schedule| == |old(schedule)| - 1
      ensures r.Went? ==> Ready(t) && (r.value == Id(s.w.ids, t) <==> old(Place(t)).wpc.UnlockAssert?)
      ensures r.Went? ==> Place(t) == old(Place(t)).(wpc := match old(Place(t)).wpc
                                                            case LockRead => W.LockEnter
                                                            case TryRead => W.TryEnter
                                                            case _ => W.UnlockClear)
    {
      hide W.Inv, Inv, ThreadInv, Apply, Enabled;
      var rr, from := Access(t, 0);
      var i :- rr;
      OwnerReadShows(from, t, i);
      InvFacts(s, t);
      return Went(from.w.owner[i]);
    }

    method EnterCriticalSection(t: nat, ghost past: nat) returns (r: Progress<()>)
      requires Ready(t) && s.thr[t].pc.LockMutex? && s.w.thr[t].pc.LockEnter? && past < |run|
      modifies this
      ensures Valid() && Past(old(acts), old(run), old(s.w.ids)) && t < |s.thr|
      ensures if r.Preempted? then schedule == [] else |schedule| < |old(schedule)|
      ensures old(schedule) != [] && (r.Preempted? || |schedule| != |old(schedule)| - 1) ==> WasHeldUp(run, t, past)
      ensures r.Went? ==> Ready(t) && Place(t) == old(Place(t)).(wpc := W.LockWrite, inSection := true)
    {
      var rr, from := Access(t, past);
      var i :- rr;
      InvFacts(from, t);
      InsideFacts(from.w, t, i);
      hide W.Inv, Inv, ThreadInv;
      InvFacts(s, t);
      return Went(());
    }

    method TryEnterCriticalSection(t: nat, ghost past: nat) returns (r: Progress<bool>)
      requires Ready(t) && s.thr[t].pc.TryMutex? && s.w.thr[t].pc.TryEnter? && past < |run|
      modifies this
      ensures Valid() && Past(old(acts), old(run), old(s.w.ids)) && t < |s.thr|
      ensures if r.Preempted? then schedule == old(schedule) == [] else |schedule| == |old(schedule)| - 1
      ensures r.Went? ==> Ready(t)
      ensures r == Went(false) ==> WasBusy(run, t, past)
      ensures r == Went(true) ==> Place(t) == old(Place(t)).(wpc := W.TryWrite, inSection := true)
      ensures r == Went(false) ==> Place(t) == old(Place(t)).(pc := Returning(TryLock, -1), wpc := W.Idle(W.EBUSY))
    {
      hide W.Inv, Inv, ThreadInv, Apply, Enabled, FindsBusy;
      var rr, from := Access(t, 0);
      var i :- rr;
      TryEnterShows(from, t, i);
      InvFacts(s, t);
      return Went(from.w.section.Free?);
    }

    method WriteOwner(t: nat, value: Word) returns (r: Progress<()>)
      requires Ready(t) && InMutexCall(s.thr[t].pc) && s.w.thr[t].pc in {W.LockWrite, W.TryWrite, W.UnlockClear}
      requires value == if s.w.thr[t].pc.UnlockClear? then 0 else Id(s.w.ids, t)
      modifies this
      ensures Valid() && Past(old(acts), old(run), old(s.w.ids)) && t < |s.thr|
      ensures if r.Preempted? then schedule == old(schedule) == [] else |schedule| == |old(schedule)| - 1
      ensures r.Went? ==> Ready(t) && |s.w.owner| > 0 && s.w.owner[|s.w.owner| - 1] == value
      ensures r.Went? ==> Place(t) == match old(Place(t)).wpc
                                      case LockWrite => old(Place(t)).(pc := LockAssert, wpc := W.Idle(0))
                                      case TryWrite => old(Place(t)).(pc := WriteId(TryLock), wpc := W.Idle(0))
                                      case _ => old(Place(t)).(wpc := W.UnlockLeave)
    {
      var rr, from := Access(t, 0);
      var i :- rr;
      InvFacts(from, t);
      InsideFacts(from.w, t, i);
      hide W.Inv, Inv, ThreadInv;
      InvFacts(s, t);
      return Went(());
    }

    method LeaveCriticalSection(t: nat) returns (r: Progress<()>)
      requires Ready(t) && s.thr[t].pc.UnlockMutex? && s.w.thr[t].pc.UnlockLeave?
      modifies this
      ensures Valid() && Past(old(acts), old(run), old(s.w.ids)) && t < |s.thr|
      ensures if r.Preempted? then schedule == old(schedule) == [] else |schedule| == |old(schedule)| - 1
      ensures r.Went? ==> Ready(t) && Place(t) == old(Place(t)).(pc := Returning(Unlock, 0), wpc := W.Idle(0),
          inSection := false)
    {
      var rr, from := Access(t, 0);
      var i :- rr;
      InvFacts(from, t);
      InsideFacts(from.w, t, i);
      hide W.Inv, Inv, ThreadInv;
      InvFacts(s, t);
      return Went(());
    }

    // ---- the accesses of the recursive mutex ----

    method ReadThreadId(t: nat) returns (r: Progress<Word>)
      requires Ready(t) && s.thr[t].pc in {LockReadId, TryReadId, LockAssert, UnlockAssert}
      modifies this
      ensures Valid() && Past(old(acts), old(run), old(s.w.ids)) && t < |s.thr|
      ensures if r.Preempted? then schedule == old(schedule) == [] else |schedule| == |old(schedule)| - 1
      ensures r.Went? && old(Place(t)).pc.LockAssert? ==> r.value == 0
      ensures r.Went? && old(Place(t)).pc.UnlockAssert? ==> r.value == Id(s.w.ids, t)
      ensures r.Went? && (old(Place(t)).pc.LockReadId? || old(Place(t)).pc.TryReadId?) ==>
        (r.value == Id(s.w.ids, t) <==> old(Place(t)).inSection)
      ensures r.Went? ==> Ready(t) && Place(t) == AfterRead(old(Place(t)))
    {
      var rr, from := Access(t, 0);
      var i :- rr;
      ReadShows(from, t, i);
      hide W.Inv, Inv, ThreadInv, Apply, Enabled;
      InvFacts(s, t);
      return Went(from.tid[i]);
    }

    method WriteThreadId(t: nat, value: Word) returns (r: Progress<()>)
      requires Ready(t) && (s.thr[t].pc.WriteId? || s.thr[t].pc.UnlockClearId?)
      requires value == if s.thr[t].pc.WriteId? then Id(s.w.ids, t) else 0
      modifies this
      ensures Valid() && Past(old(acts), old(run), old(s.w.ids)) && t < |s.thr|
      ensures if r.Preempted? then schedule == old(schedule) == [] else |schedule| == |old(schedule)| - 1
      ensures r.Went? ==> Ready(t) && s.tid[|s.tid| - 1] == value
      ensures r.Went? && old(Place(t)).pc.WriteId? ==>
        Place(t) == old(Place(t)).(pc := Increment(old(Place(t)).pc.op))
      ensures r.Went? && old(Place(t)).pc.UnlockClearId? ==>
        Place(t) == old(Place(t)).(pc := UnlockMutex, wpc := W.UnlockAssert)
    {
      hide W.Inv, Inv, ThreadInv, Apply, Enabled;
      var rr, from := Access(t, 0);
      var i :- rr;
      IdWriteShows(from, t, i);
      InvFacts(s, t);
      return Went(());
    }

    /** Returns the depth before, as the atomic increment does. */
    method IncrementDepth(t: nat) returns (r: Progress<int>)
      requires Ready(t) && s.thr[t].pc.Increment?
      modifies this
      ensures Valid() && Past(old(acts), old(run), old(s.w.ids)) && t < |s.thr|
      ensures if r.Preempted? then schedule == old(schedule) == [] else |schedule| == |old(schedule)| - 1
      ensures r.Went? ==> Ready(t) && r.value == old(Place(t)).held && s.depth == r.value + 1
      ensures r.Went? ==> Place(t) == old(Place(t)).(pc := Returning(old(Place(t)).pc.op, 0))
    {
      var rr, from := Access(t, 0);
      var i :- rr;
      InvFacts(from, t);
      hide W.Inv, Inv;
      InvFacts(s, t);
      return Went(from.depth);
    }

    /** Returns the depth before, as the atomic decrement does. */
    method DecrementDepth(t: nat) returns (r: Progress<int>)
      requires Ready(t) && s.thr[t].pc.UnlockDecrement?
      modifies this
      ensures Valid() && Past(old(acts), old(run), old(s.w.ids)) && t < |s.thr|
      ensures if r.Preempted? then schedule == old(schedule) == [] else |schedule| == |old(schedule)| - 1
      ensures r.Went? ==> Ready(t) && r.value == old(Place(t)).held + 1 && s.depth == r.value - 1
      ensures r.Went? ==> Place(t) == old(Place(t)).(pc := if r.value > 1 then Returning(Unlock, 0) else UnlockClearId)
    {
      var rr, from := Access(t, 0);
      var i :- rr;
      InvFacts(from, t);
      hide W.Inv, Inv;
      InvFacts(s, t);
      return Went(from.depth);
    }

    /** A client calls, or its call returns. */
    method Begin(t: nat, op: Op)
      requires Valid() && t < |s.thr| && s.thr[t].pc.Idle? && (op.Unlock? ==> s.thr[t].held > 0)
      modifies this`s, this`run, this`acts
      ensures Valid() && Past(old(acts), old(run), old(s.w.ids)) && t < |s.thr| == |old(s.thr)| && Ready(t)
      ensures |run| == |old(run)| + 1
      ensures s.w.thr[t].pc.Idle? && W.Holds(s.w, t) == W.Holds(old(s).w, t) == (old(s.thr[t]).held > 0)
      ensures s.thr[t].pc == (match op case Lock => LockReadId case TryLock => TryReadId case Unlock => UnlockAssert)
      ensures s.thr[t].held == old(s.thr[t]).held - if op.Unlock? then 1 else 0
    {
      assert Inv(s) by { RunKeepsInv(run, acts); }
      InvFacts(s, t);
      StepKeepsInv(s, Act(t, Call(op)));
      Do(Act(t, Call(op)));
      InvFacts(s, t);
    }

    method End(t: nat)
      requires Ready(t) && s.thr[t].pc.Returning?
      modifies this`s, this`run, this`acts
      ensures Valid() && Past(old(acts), old(run), old(s.w.ids)) && t < |s.thr| == |old(s.thr)| && Ready(t)
          && s.thr[t].pc.Idle?
      ensures s.thr[t].held == old(s.thr[t]).held + if old(s.thr[t]).pc.op.Unlock? || old(s.thr[t]).pc.rc != 0 then 0
              else 1
      ensures Accounted(t)
    {
      assert Inv(s) by { RunKeepsInv(run, acts); }
      StepKeepsInv(s, Act(t, Return));
      Do(Act(t, Return));
      InvFacts(s, t);
    }
  }

  // ---- mulle-thread-windows.h ----

  /** Three slots, or more only if the caller was held up by another thread in the section. */
  method MutexLock(m: Memory, t: nat, ghost past: nat) returns (r: Progress<int>)
    requires m.Ready(t) && m.s.thr[t].pc.LockMutex? && m.s.w.thr[t].pc.LockRead? && past < |m.run|
    modifies m
    ensures m.Valid() && m.Past(old(m.acts), old(m.run), old(m.s.w.ids)) && t < |m.s.thr|
    ensures r.Went? ==> r.value == 0 && m.Ready(t)
    ensures r.Went? ==> m.Place(t) == Where(LockAssert, W.Idle(0), true, old(m.Place(t)).held)
    ensures r.Preempted? ==> m.schedule == [] && (|old(m.schedule)| >= 3 ==> WasHeldUp(m.run, t, past))
    ensures r.Went? ==>
      |m.schedule| == |old(m.schedule)| - 3 || (|m.schedule| < |old(m.schedule)| - 3 && WasHeldUp(m.run, t, past))
  {
    hide Inv, W.Inv, ThreadInv, IsRun, Apply, WasHeldUp;
    var selfId := Id(m.s.w.ids, t);
    var owner :- m.ReadOwner(t);
    if owner == selfId {
      assert false;  // "recursive lock of non-recursive mutex"
    }
    var entered := m.EnterCriticalSection(t, past);
    LastingEvidence(m.run, t, past);
    var _ :- entered;
    var _ :- m.WriteOwner(t, selfId);
    return Went(0);
  }

  /** Once held up always held up: the evidence lasts however the run goes on. */
  lemma LastingEvidence(run: seq<State>, t: nat, past: nat)
    ensures WasHeldUp(run, t, past) ==> forall run': seq<State> :: run <= run' ==> WasHeldUp(run', t, past)
  {
    if WasHeldUp(run, t, past) {
      forall run': seq<State> | run <= run' ensures WasHeldUp(run', t, past) {
        StillHeldUp(run, run', t, past);
      }
    }
  }

  /** Never waits. */
  method MutexTrylock(m: Memory, t: nat, ghost past: nat) returns (r: Progress<int>)
    requires m.Ready(t) && m.s.thr[t].pc.TryMutex? && m.s.w.thr[t].pc.TryRead? && past < |m.run|
    modifies m
    ensures m.Valid() && m.Past(old(m.acts), old(m.run), old(m.s.w.ids)) && t < |m.s.thr|
    ensures r.Went? ==> m.Ready(t) && (r.value == 0 || r.value == W.EBUSY)
    ensures r == Went(0) ==> m.Place(t) == Where(WriteId(TryLock), W.Idle(0), true, old(m.Place(t)).held)
    ensures r == Went(W.EBUSY) ==>
      m.Place(t) == old(m.Place(t)).(pc := Returning(TryLock, -1), wpc := W.Idle(W.EBUSY)) && WasBusy(m.run, t, past)
    ensures if r.Preempted? then m.schedule == [] && |old(m.schedule)| < 3 else |m.schedule| >= |old(m.schedule)| - 3
  {
    hide Inv, W.Inv, ThreadInv, IsRun, Apply, WasBusy;
    var selfId := Id(m.s.w.ids, t);
    var ownerId :- m.ReadOwner(t);
    if ownerId == selfId {
      assert false;  // only a caller that holds the mutex
    }
    var entered :- m.TryEnterCriticalSection(t, past);
    if entered {
      var _ :- m.WriteOwner(t, selfId);
      return Went(0);
    }
    return Went(W.EBUSY);
  }

  /** Never waits. */
  method MutexUnlock(m: Memory, t: nat) returns (r: Progress<int>)
    requires m.Ready(t) && m.s.thr[t].pc.UnlockMutex? && m.s.w.thr[t].pc.UnlockAssert?
    modifies m
    ensures m.Valid() && m.Past(old(m.acts), old(m.run), old(m.s.w.ids)) && t < |m.s.thr|
    ensures r.Went? ==> r.value == 0 && m.Ready(t)
    ensures r.Went? ==> m.Place(t) == Where(Returning(Unlock, 0), W.Idle(0), false, old(m.Place(t)).held)
    ensures if r.Preempted? then m.schedule == [] && |old(m.schedule)| < 3 else |m.schedule| == |old(m.schedule)| - 3
  {
    hide Inv, W.Inv, ThreadInv, IsRun, Apply;
    var owner :- m.ReadOwner(t);
    assert owner == Id(m.s.w.ids, t);
    var _ :- m.WriteOwner(t, 0);
    var _ :- m.LeaveCriticalSection(t);
    return Went(0);
  }

  // ---- mulle-thread.c ----

  /** What a thread does that does not hold the lock yet: five slots, or more only if it is held up. */
  method Acquire(m: Memory, t: nat, ghost past: nat) returns (r: Progress<()>)
    requires m.Ready(t) && m.Place(t) == Where(LockMutex, W.LockRead, false, 0) && past < |m.run|
    modifies m
    ensures m.Valid() && m.Past(old(m.acts), old(m.run), old(m.s.w.ids)) && t < |m.s.thr|
    ensures r.Went? ==> m.Ready(t) && m.Place(t) == Where(Increment(Lock), W.Idle(0), true, 0)
    ensures r.Preempted? ==> m.schedule == [] && (|old(m.schedule)| >= 5 ==> WasHeldUp(m.run, t, past))
    ensures r.Went? ==>
      |m.schedule| == |old(m.schedule)| - 5 || (|m.schedule| < |old(m.schedule)| - 5 && WasHeldUp(m.run, t, past))
  {
    hide Inv, W.Inv, ThreadInv, IsRun, Apply, Enabled, W.Apply, W.Enabled, W.Holds, Published, Placed, WasHeldUp,
      LockOf, Memory.Accounted;
    var curr := Id(m.s.w.ids, t);
    var locked := MutexLock(m, t, past);
    LastingEvidence(m.run, t, past);
    var _ :- locked;
    var nobody :- m.ReadThreadId(t);
    assert nobody == 0;
    var _ :- m.WriteThreadId(t, curr);
    return Went(());
  }

  /** mulle_thread_recursive_mutex_lock: if it returns, the caller holds the lock once more. A caller that
      holds it already needs two slots; one that does not needs seven, or more only if it was held up by
      another thread in the section. */
  method RecursiveMutexLock(m: Memory, t: nat) returns (r: Progress<()>)
    requires m.Client(t)
    modifies m
    ensures m.Valid() && m.Past(old(m.acts), old(m.run), old(m.s.w.ids)) && t < |m.s.thr|
    ensures r.Went? ==> m.Accounted(t) && m.s.thr[t].held == old(m.s.thr[t]).held + 1 && |m.run| > |old(m.run)|
    ensures r.Preempted? ==> m.schedule == []
    ensures r.Went? ==> |m.schedule| >= |old(m.schedule)| - 7 || WasHeldUp(m.run, t, |old(m.run)|)
    ensures r.Preempted? && |old(m.schedule)| >= 7 ==> WasHeldUp(m.run, t, |old(m.run)|)
    ensures old(m.s.thr[t]).held > 0 ==>
      if r.Preempted? then |old(m.schedule)| < 2 else |m.schedule| == |old(m.schedule)| - 2
  {
    hide Inv, W.Inv, ThreadInv, IsRun, Apply, Enabled, W.Apply, W.Enabled, W.Holds, Published, Placed, WasHeldUp,
      LockOf, Memory.Accounted;
    m.Begin(t, Lock);
    var curr := Id(m.s.w.ids, t);
    var owner :- m.ReadThreadId(t);
    if owner != curr {
      var acquired := Acquire(m, t, |old(m.run)|);
      LastingEvidence(m.run, t, |old(m.run)|);
      var _ :- acquired;
    }
    var _ :- m.IncrementDepth(t);
    m.End(t);
    return Went(());
  }

  /** The same without waiting, when the mutex is free. */
  method TryAcquire(m: Memory, t: nat, ghost past: nat) returns (r: Progress<bool>)
    requires m.Ready(t) && m.Place(t) == Where(TryMutex, W.TryRead, false, 0) && past < |m.run|
    modifies m
    ensures m.Valid() && m.Past(old(m.acts), old(m.run), old(m.s.w.ids)) && t < |m.s.thr|
    ensures r == Went(true) ==> m.Ready(t) && m.Place(t) == Where(Increment(TryLock), W.Idle(0), true, 0)
    ensures r == Went(false) ==> m.Ready(t) && m.Place(t) == Where(Returning(TryLock, -1), W.Idle(W.EBUSY), false, 0)
    ensures r == Went(false) ==> WasBusy(m.run, t, past)
    ensures if r.Preempted? then m.schedule == [] && |old(m.schedule)| < 4 else |m.schedule| >= |old(m.schedule)| - 4
  {
    hide Inv, W.Inv, ThreadInv, IsRun, Apply, Enabled, W.Apply, W.Enabled, W.Holds, Published, Placed, LockOf,
      Memory.Accounted, WasBusy;
    var curr := Id(m.s.w.ids, t);
    var busy :- MutexTrylock(m, t, past);
    if busy != 0 {
      return Went(false);
    }
    var _ :- m.WriteThreadId(t, curr);
    return Went(true);
  }

  /** mulle_thread_recursive_mutex_trylock: 0 and held once more, or -1 and nothing changed, another
      thread having been in the section. Never waits. */
  method RecursiveMutexTrylock(m: Memory, t: nat) returns (r: Progress<int>)
    requires m.Client(t)
    modifies m
    ensures m.Valid() && m.Past(old(m.acts), old(m.run), old(m.s.w.ids)) && t < |m.s.thr|
    ensures r.Went? ==> m.Accounted(t) && (r.value == 0 || r.value == -1)
    ensures r.Went? ==> m.s.thr[t].held == old(m.s.thr[t]).held + if r.value == 0 then 1 else 0
    ensures r == Went(-1) ==> old(m.s.thr[t]).held == 0 && WasBusy(m.run, t, |old(m.run)|)
    ensures if r.Preempted? then m.schedule == [] && |old(m.schedule)| < 6 else |m.schedule| >= |old(m.schedule)| - 6
  {
    hide Inv, W.Inv, ThreadInv, IsRun, Apply, Enabled, W.Apply, W.Enabled, W.Holds, Published, Placed, LockOf,
      Memory.Accounted, WasBusy;
    m.Begin(t, TryLock);
    var curr := Id(m.s.w.ids, t);
    var owner :- m.ReadThreadId(t);
    if owner != curr {
      var acquired :- TryAcquire(m, t, |old(m.run)|);
      if !acquired {
        ghost var busy := m.run;
        m.End(t);
        StillBusy(busy, m.run, t, |old(m.run)|);
        return Went(-1);
      }
    }
    var _ :- m.IncrementDepth(t);
    m.End(t);
    return Went(0);
  }

  /** mulle_thread_recursive_mutex_unlock: held once less, and not at all after the outermost. Never waits. */
  method RecursiveMutexUnlock(m: Memory, t: nat) returns (r: Progress<()>)
    requires m.Client(t) && m.s.thr[t].held > 0
    modifies m
    ensures m.Valid() && m.Past(old(m.acts), old(m.run), old(m.s.w.ids)) && t < |m.s.thr|
    ensures r.Went? ==> m.Accounted(t) && m.s.thr[t].held == old(m.s.thr[t]).held - 1
    ensures if r.Preempted? then m.schedule == [] && |old(m.schedule)| < 6 else |m.schedule| >= |old(m.schedule)| - 6
  {
    hide Inv, W.Inv, ThreadInv, IsRun, Apply, Enabled, W.Apply, W.Enabled, W.Holds, Published, Placed, LockOf,
      Memory.Accounted;
    m.Begin(t, Unlock);
    var owner :- m.ReadThreadId(t);
    assert owner == Id(m.s.w.ids, t);
    var depth :- m.DecrementDepth(t);
    if depth > 1 {
      m.End(t);
      return Went(());
    }
    var _ :- m.WriteThreadId(t, 0);
    var _ :- MutexUnlock(m, t);
    m.End(t);
    return Went(());
  }

  // ---- mulle_thread_recursive_mutex_do ----

  /** How the statement of the macro is left. */
  datatype Exit = Normal | Continue | Break

  /** A statement under the macro, as far as the lock is concerned: further macros nested in it. */
  datatype Statement = Statement(nested: seq<Statement>, exit: Exit)

  /** Where a statement stands in another: which of the nested ones, which of those nested in that one, ... */
  type Path = seq<nat>

  predicate IsPath(statement: Statement, path: Path) {
    path == [] || (path[0] < |statement.nested| && IsPath(statement.nested[path[0]], path[1..]))
  }

  /** The laws that make the paths what they are. */
  lemma PathLaws(statement: Statement, i: nat, path: Path)
    ensures IsPath(statement, [])
    ensures IsPath(statement, [i] + path) <==> i < |statement.nested| && IsPath(statement.nested[i], path)
  {
    assert ([i] + path)[1..] == path;
  }

  /** A statement is executed before those nested in it, and of two nested ones the first comes first. */
  predicate ComesBefore(p: Path, q: Path) {
    && !(q <= p)
    && forall n :: 0 <= n < |p| && n < |q| && p[..n] == q[..n] && p[n] != q[n] ==> p[n] < q[n]
  }

  /** All statements, each once and in their order. */
  ghost predicate VisitsAll(statement: Statement, visits: seq<Path>) {
    && |visits| > 0 && visits[0] == []
    && (forall path :: IsPath(statement, path) <==> path in visits)
    && (forall j, k :: 0 <= j < k < |visits| ==> ComesBefore(visits[j], visits[k]))
  }

  /** The statement itself and the first n nested ones with all that is in them. */
  ghost predicate VisitsFirst(statement: Statement, n: nat, visits: seq<Path>) {
    && |visits| > 0 && visits[0] == []
    && (forall path :: IsPath(statement, path) && (path == [] || path[0] < n) <==> path in visits)
    && (forall j, k :: 0 <= j < k < |visits| ==> ComesBefore(visits[j], visits[k]))
  }

  function Under(i: nat, visits: seq<Path>): (r: seq<Path>)
    ensures |r| == |visits| && forall k :: 0 <= k < |r| ==> r[k] == [i] + visits[k]
  {
    seq(|visits|, k requires 0 <= k < |visits| => [i] + visits[k])
  }

  lemma PrefixUnder(i: nat, p: Path, q: Path)
    ensures [i] + q <= [i] + p ==> q <= p
  {
    var p', q' := [i] + p, [i] + q;
    if q' <= p' {
      assert q == q'[1..] && p == p'[1..] && q' == p'[..|q'|];
      assert q == p[..|q|];
    }
  }

  lemma UnderComesBefore(i: nat, p: Path, q: Path)
    requires ComesBefore(p, q)
    ensures ComesBefore([i] + p, [i] + q)
  {
    var p', q' := [i] + p, [i] + q;
    PrefixUnder(i, p, q);
    forall n | 0 <= n < |p'| && n < |q'| && p'[..n] == q'[..n] && p'[n] != q'[n] ensures p'[n] < q'[n] {
      assert p[..n - 1] == p'[..n][1..] && q[..n - 1] == q'[..n][1..];
      assert p[n - 1] == p'[n] && q[n - 1] == q'[n];
    }
  }

  lemma EarlierComesBefore(p: Path, q: Path)
    requires q != [] && (p == [] || p[0] < q[0])
    ensures ComesBefore(p, q)
  {
    assert forall n :: 0 < n <= |p| && n <= |q| && p[..n] == q[..n] ==> p[..n][0] == q[..n][0];
  }

  lemma VisitsOneMore(statement: Statement, n: nat, visits: seq<Path>, inner: seq<Path>)
    requires n < |statement.nested| && VisitsFirst(statement, n, visits) && VisitsAll(statement.nested[n], inner)
    ensures VisitsFirst(statement, n + 1, visits + Under(n, inner))
  {
    var both, more := visits + Under(n, inner), Under(n, inner);
    hide ComesBefore, IsPath;
    forall path ensures IsPath(statement, path) && (path == [] || path[0] < n + 1) <==> path in both {
      if path == [] || path[0] != n {
        assert path !in more;
      } else {
        assert path == [n] + path[1..];
        PathLaws(statement, n, path[1..]);
        assert path in more <==> path[1..] in inner by {
          if path[1..] in inner {
            var k :| 0 <= k < |inner| && inner[k] == path[1..];
            assert more[k] == path;
          }
          if path in more {
            var k :| 0 <= k < |more| && more[k] == path;
            assert inner[k] == ([n] + inner[k])[1..];
          }
        }
        assert path !in visits;
      }
    }
    forall j, k | 0 <= j < k < |both| ensures ComesBefore(both[j], both[k]) {
      if |visits| <= j {
        UnderComesBefore(n, inner[j - |visits|], inner[k - |visits|]);
      } else if |visits| <= k {
        assert both[j] == visits[j] && visits[j] in visits && both[k] == [n] + inner[k - |visits|];
        EarlierComesBefore(both[j], both[k]);
      }
    }
  }

  lemma VisitsItself(statement: Statement)
    ensures VisitsFirst(statement, 0, [[]])
  {
  }

  lemma VisitsAllOfThem(statement: Statement, visits: seq<Path>)
    requires VisitsFirst(statement, |statement.nested|, visits)
    ensures VisitsAll(statement, visits)
  {
    hide ComesBefore;
  }

  /** Slots enough for the macro with its statement. */
  function Slots(statement: Statement): nat
    decreases statement, 0
  {
    13 + SlotsOf(statement.nested)
  }

  function SlotsOf(nested: seq<Statement>): nat
    decreases nested, 1
  {
    if |nested| == 0 then 0 else SlotsOf(nested[..|nested| - 1]) + Slots(nested[|nested| - 1])
  }

  /** The statement, with the nested macros executed while the lock is held; the result is what has been
      executed, as the run shows it at the places `at`. */
  method RunStatement(m: Memory, t: nat, statement: Statement, ghost past: nat)
    returns (r: Progress<seq<Path>>, ghost at: seq<nat>)
    requires m.Accounted(t) && m.s.thr[t].held > 0 && past < |m.run|
    modifies m
    ensures m.Valid() && m.Past(old(m.acts), old(m.run), old(m.s.w.ids)) && t < |m.s.thr|
    ensures r.Went? ==> m.Accounted(t) && m.s.thr[t].held == old(m.s.thr[t]).held
    ensures r.Went? ==>
      VisitsAll(statement, r.value) && Shown(m.run, t, r.value, old(m.s.thr[t]).held, at, past)
    ensures if r.Preempted? then m.schedule == [] && |old(m.schedule)| < SlotsOf(statement.nested)
            else |m.schedule| >= |old(m.schedule)| - SlotsOf(statement.nested)
    decreases statement, 0
  {
    hide Inv, W.Inv, ThreadInv, IsRun, Apply, Enabled, W.Apply, W.Enabled, W.Holds, Published, Placed, LockOf,
      Memory.Valid,
      Shown, HeldIn, VisitsAll, VisitsFirst, IsPath;
    var visits: seq<Path> := [[]];
    VisitsItself(statement);
    at := [|m.run| - 1];
    HeldNow(m, t, past);
    for k := 0 to |statement.nested|
      invariant m.Accounted(t) && m.s.thr[t].held == old(m.s.thr[t]).held
      invariant m.Valid() && m.Past(old(m.acts), old(m.run), old(m.s.w.ids))
      invariant VisitsFirst(statement, k, visits)
      invariant |m.schedule| >= |old(m.schedule)| - SlotsOf(statement.nested[..k])
      invariant past <= |m.run| && Shown(m.run, t, visits, m.s.thr[t].held, at, past)
    {
      assert statement.nested[..k + 1][..k] == statement.nested[..k];
      SlotsGrow(statement.nested, k + 1);
      ghost var run, inner := m.run, at;
      var nested;
      nested, inner := RecursiveMutexDo(m, t, statement.nested[k]);
      if nested.Preempted? {
        return Preempted, at;
      }
      ShownBoth(run, m.run, t, visits, m.s.thr[t].held, at, k, nested.value, inner, past);
      VisitsOneMore(statement, k, visits, nested.value);
      visits, at := visits + Under(k, nested.value), at + inner;
    }
    assert statement.nested[..|statement.nested|] == statement.nested;
    VisitsAllOfThem(statement, visits);
    return Went(visits), at;
  }

  lemma HeldNow(m: Memory, t: nat, past: nat)
    requires m.Accounted(t) && m.s.thr[t].held > 0 && past < |m.run|
    ensures Shown(m.run, t, [[]], m.s.thr[t].held, [|m.run| - 1], past)
  {
  }

  lemma {:induction false} SlotsGrow(nested: seq<Statement>, k: nat)
    requires k <= |nested|
    ensures SlotsOf(nested[..k]) <= SlotsOf(nested)
    decreases |nested|
  {
    if k == |nested| {
      assert nested[..k] == nested;
    } else {
      SlotsGrow(nested[..|nested| - 1], k);
      assert nested[..|nested| - 1][..k] == nested[..k];
    }
  }

  /** The loops of the macro and the unlock, behind the lock of the outer loop's initialisation. */
  method RunLocked(m: Memory, t: nat, statement: Statement, ghost past: nat)
    returns (r: Progress<seq<Path>>, ghost at: seq<nat>)
    requires m.Accounted(t) && m.s.thr[t].held > 0 && past < |m.run|
    modifies m
    ensures m.Valid() && m.Past(old(m.acts), old(m.run), old(m.s.w.ids)) && t < |m.s.thr|
    ensures r.Went? ==> m.Accounted(t) && m.s.thr[t].held == old(m.s.thr[t]).held - 1
    ensures r.Went? ==>
      VisitsAll(statement, r.value) && Shown(m.run, t, r.value, old(m.s.thr[t]).held, at, past)
    ensures if r.Preempted? then m.schedule == [] && |old(m.schedule)| < SlotsOf(statement.nested) + 6
            else |m.schedule| >= |old(m.schedule)| - SlotsOf(statement.nested) - 6
    decreases statement, 1
  {
    hide Inv, W.Inv, ThreadInv, IsRun, Apply, Enabled, W.Apply, W.Enabled, W.Holds, Published, Placed, LockOf,
      Memory.Valid,
      Shown, HeldIn, VisitsAll, VisitsFirst, IsPath;
    var i: nat, visits: seq<Path> := 0, [];
    at := [];
    while i < 1
      invariant 0 <= i <= 1 && m.Valid() && m.Past(old(m.acts), old(m.run), old(m.s.w.ids)) && t < |m.s.thr|
      invariant m.Accounted(t) && m.s.thr[t].held == old(m.s.thr[t]).held - i
      invariant past < |m.run| && (i == 1 ==> VisitsAll(statement, visits))
      invariant i == 1 ==> Shown(m.run, t, visits, old(m.s.thr[t]).held, at, past)
      invariant |m.schedule| >= |old(m.schedule)| - if i == 0 then 0 else SlotsOf(statement.nested) + 6
    {
      var j := 0;
      while j < 1
        invariant m.Valid() && m.Past(old(m.acts), old(m.run), old(m.s.w.ids)) && t < |m.s.thr|
        invariant 0 <= j <= 1 && m.Accounted(t) && m.s.thr[t].held == old(m.s.thr[t]).held
        invariant past < |m.run| && (j == 1 ==> VisitsAll(statement, visits))
        invariant j == 1 ==> Shown(m.run, t, visits, old(m.s.thr[t]).held, at, past)
        invariant |m.schedule| >= |old(m.schedule)| - if j == 0 then 0 else SlotsOf(statement.nested)
      {
        var executed;
        executed, at := RunStatement(m, t, statement, past);
        if executed.Preempted? {
          return Preempted, at;
        }
        visits := executed.value;
        if statement.exit.Break? {
          break;
        }
        j := j + 1;  // also after `continue`
      }
      ghost var run := m.run;
      var unlocked := RecursiveMutexUnlock(m, t);
      if unlocked.Preempted? {
        return Preempted, at;
      }
      ShownFurther(run, m.run, t, visits, old(m.s.thr[t]).held, at, past);
      i := i + 1;
    }
    return Went(visits), at;
  }

  /** However deep the nesting and however the statements are left, each of them is executed once, in order,
      with the lock held once more than around it: the run shows it at the places `at`. Behind the macro the
      lock is held as often as before. Only an outermost macro ever waits. */
  method RecursiveMutexDo(m: Memory, t: nat, statement: Statement)
    returns (r: Progress<seq<Path>>, ghost at: seq<nat>)
    requires m.Client(t)
    modifies m
    ensures m.Valid() && m.Past(old(m.acts), old(m.run), old(m.s.w.ids)) && t < |m.s.thr|
    ensures r.Went? ==> m.Accounted(t) && m.s.thr[t].held == old(m.s.thr[t]).held
    ensures r.Went? ==> VisitsAll(statement, r.value)
    ensures r.Went? ==> Shown(m.run, t, r.value, old(m.s.thr[t]).held + 1, at, |old(m.run)|)
    ensures r.Preempted? ==> m.schedule == []
    ensures r.Preempted? && |old(m.schedule)| >= Slots(statement) ==> WasHeldUp(m.run, t, |old(m.run)|)
    ensures old(m.s.thr[t]).held > 0 ==>
      if r.Preempted? then |old(m.schedule)| < Slots(statement)
              else |m.schedule| >= |old(m.schedule)| - Slots(statement)
    decreases statement, 2
  {
    hide Inv, W.Inv, ThreadInv, IsRun, Apply, Enabled, W.Apply, W.Enabled, W.Holds, Published, Placed, LockOf,
      Memory.Valid,
      WasHeldUp, Shown, HeldIn, VisitsAll;
    var entered := RecursiveMutexLock(m, t);
    if entered.Preempted? {
      return Preempted, [];
    }
    ghost var locked := m.run;
    r, at := RunLocked(m, t, statement, |old(m.run)|);
    if WasHeldUp(locked, t, |old(m.run)|) { StillHeldUp(locked, m.run, t, |old(m.run)|); }
  }
}
