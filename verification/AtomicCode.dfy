/** The compare-and-swap loops in the shape of mulle-atomic.h and test/atomic/cas.c, running on the
    machines of modules AtomicSet and CasTest under every schedule. */
module AtomicSetCode {
  import opened Scheduling
  import opened AtomicSet

  datatype Slot = Slot(others: seq<Act>, i: nat, spurious: bool)

  class Memory {
    var s: State
    var schedule: seq<Slot>
    ghost var run: seq<State>
    ghost var acts: seq<Act>

    ghost predicate Valid()
      reads this
    {
      |run| == |acts| + 1 && IsRun(run, acts) && run[|acts|] == s && |s.word| > 0
      && forall u :: 0 <= u < |s.thr| ==> s.thr[u].view < |s.word|
    }

    constructor (start: State, schedule: seq<Slot>)
      requires Init(start)
      ensures Valid() && s == start && this.schedule == schedule && acts == []
    {
      s, run, acts := start, [start], [];
      this.schedule := schedule;
    }

    /** The run goes on from where it was. */
    twostate predicate GoesOn()
      reads this
    {
      && Valid() && old(run) <= run && old(acts) <= acts && |s.thr| == |old(s.thr)|
      && s.mayFail == old(s.mayFail) && old(s.word) <= s.word
    }

    /** The last step of the run was made by t, in state `from`. */
    twostate predicate MovedFrom(t: nat, from: State)
      reads this
    {
      |acts| > |old(acts)| && acts[|acts| - 1].t == t && |run| > |old(run)| && |run| > 1 && run[|run| - 2] == from
    }

    method Do(a: Act)
      requires Valid() && Enabled(s, a)
      modifies this`s, this`run, this`acts
      ensures Valid() && s == Apply(old(s), a) && acts == old(acts) + [a] && run == old(run) + [s]
      ensures |s.thr| == |old(s.thr)| && forall u :: 0 <= u < |s.thr| && u != a.t ==> s.thr[u] == old(s.thr[u])
      ensures s.mayFail == old(s.mayFail) && old(s.word) <= s.word
    {
      s := Apply(s, a);
      run, acts := run + [s], acts + [a];
    }

    method LetOthersRun(t: nat, others: seq<Act>)
      requires Valid() && t < |s.thr|
      modifies this`s, this`run, this`acts
      ensures GoesOn() && s.thr[t] == old(s.thr[t])
    {
      hide IsRun, Apply;
      for k := 0 to |others|
        invariant GoesOn() && s.thr[t] == old(s.thr[t])
      {
        if others[k].t != t && Enabled(s, others[k]) {
          Do(others[k]);
        }
      }
    }

    /** The weak compare-and-swap: what it saw. `from` is the state it was made in. */
    method WeakCas(t: nat, value: int, expected: int) returns (r: Progress<int>, ghost from: State)
      requires Valid() && t < |s.thr| && s.thr[t].pc == Trying(value, expected)
      modifies this
      ensures GoesOn() && from.mayFail == s.mayFail
      ensures r.Went? ==> MovedFrom(t, from)
      ensures if r.Preempted? then schedule == old(schedule) == [] && s == old(s) else |schedule| == |old(schedule)| - 1
      ensures r.Went? && r.value == expected ==>
        var c := acts[|acts| - 1].c;
        && c.WeakCas? && (c.spurious ==> s.mayFail)
        && if c.spurious then s.word == from.word else r.value == Newest(from) && s.word == from.word + [value]
      ensures r.Went? ==> |from.word| > 0 && old(s.thr[t].view) <= s.thr[t].view < |s.word|
      ensures r.Went? && r.value != expected ==>
        s.thr[t].pc == Trying(value, r.value) && s.word[s.thr[t].view] == r.value
      ensures r.Went? && r.value == expected ==>
        && s.thr[t].pc.Outside?
        && s.given == from.given + multiset{value} && s.handed == from.handed + multiset{r.value}
        && ((Newest(from) == r.value && s.word == from.word + [value]) || (s.mayFail && s.word == from.word
            && r.value in s.word))
    {
      hide IsRun;
      from := s;
      if schedule == [] {
        return Preempted, from;
      }
      var slot := schedule[0];
      schedule := schedule[1..];
      LetOthersRun(t, slot.others);
      from := s;
      var a := Act(t, Choice.WeakCas(slot.i, slot.spurious));
      if !Enabled(s, a) {
        a := Act(t, Choice.WeakCas(|s.word| - 1, false));
      }
      var previous := s.word[a.c.i];
      Do(a);
      return Went(previous), from;
    }
  }

  /** _mulle_atomic_pointer_set and _mulle_atomic_functionpointer_set: unless its last compare-and-swap
      failed spuriously, the result is the value that the new one replaced in one and the same step. Every
      further attempt is owed to a message that the thread has not seen before, so that only other threads'
      exchanges prolong it. */
  method PointerSet(m: Memory, t: nat, value: int) returns (r: Progress<int>, ghost from: State)
    requires m.Valid() && t < |m.s.thr| && m.s.thr[t].pc.Outside?
    modifies m
    ensures m.GoesOn()
    ensures r.Went? ==> m.MovedFrom(t, from)
    ensures r.Preempted? ==> m.schedule == [] && |old(m.schedule)| <= |m.s.word| - old(m.s.thr[t].view)
    ensures r.Went? ==> m.s.thr[t].pc.Outside? && |from.word| > 0 && r.value in from.word
    ensures r.Went? && !old(m.s.mayFail) ==> r.value == Newest(from) && m.s.word == from.word + [value]
    ensures r.Went? ==>
      var last := m.acts[|m.acts| - 1].c;
      && last.WeakCas?
      && if last.spurious then m.s.word == from.word
         else r.value == Newest(from) && m.s.word == from.word + [value]
    ensures r.Went? ==> m.s.given == from.given + multiset{value} && m.s.handed == from.handed + multiset{r.value}
  {
    from := m.s;
    m.Do(Act(t, Call(value)));
    var expectation := value;
    while true
      invariant m.GoesOn() && m.s.thr[t].pc == Trying(value, expectation) && |m.schedule| <= |old(m.schedule)|
      invariant var tries, view := |old(m.schedule)| - |m.schedule|, m.s.thr[t].view;
        && view >= old(m.s.thr[t].view) && view < |m.s.word|
        && (tries > 0 ==> view >= old(m.s.thr[t].view) + tries - 1 && m.s.word[view] == expectation)
      decreases |m.schedule|
    {
      var seen;
      seen, from := m.WeakCas(t, value, expectation);
      if seen.Preempted? {
        return Preempted, from;
      }
      var previous := seen.value;
      if previous == expectation {
        return Went(previous), from;
      }
      expectation := previous;
    }
    return Preempted, from;
  }
}

module CasTestCode {
  import opened Scheduling
  import opened CasTest
  import Sums

  datatype Slot = Slot(others: seq<Act>, i: nat, spurious: bool)

  class Memory {
    var s: State
    var schedule: seq<Slot>
    ghost var run: seq<State>
    ghost var acts: seq<Act>

    ghost predicate Valid()
      reads this
    {
      IsRun(run, acts) && run[|acts|] == s && Inv(s)
    }

    constructor (start: State, schedule: seq<Slot>)
      requires Init(start)
      ensures Valid() && s == start && this.schedule == schedule && acts == []
    {
      RunKeepsInv([start], []);
      s, run, acts := start, [start], [];
      this.schedule := schedule;
    }

    /** The run goes on from where it was. */
    twostate predicate GoesOn()
      reads this
    {
      Valid() && old(run) <= run && old(acts) <= acts && |s.thr| == |old(s.thr)| && s.loops == old(s.loops)
    }

    method Do(a: Act)
      requires Valid() && Enabled(s, a)
      modifies this`s, this`run, this`acts
      ensures Valid() && s == Apply(old(s), a) && acts == old(acts) + [a] && run == old(run) + [s]
      ensures |s.thr| == |old(s.thr)| && forall u :: 0 <= u < |s.thr| && u != a.t ==> s.thr[u] == old(s.thr[u])
      ensures s.loops == old(s.loops)
    {
      StepKeepsInv(s, a);
      s := Apply(s, a);
      run, acts := run + [s], acts + [a];
    }

    method LetOthersRun(t: nat, others: seq<Act>)
      requires Valid() && t < |s.thr|
      modifies this`s, this`run, this`acts
      ensures GoesOn() && s.thr[t] == old(s.thr[t])
    {
      hide IsRun, Apply, Inv;
      for k := 0 to |others|
        invariant GoesOn() && s.thr[t] == old(s.thr[t])
      {
        if others[k].t != t && Enabled(s, others[k]) {
          Do(others[k]);
        }
      }
    }

    /** The thread's next access `a`, others going first; `from` is the state it is made in. */
    method Access(t: nat) returns (r: Progress<()>, from: State, a: Act)
      requires Valid() && t < |s.thr| && !s.thr[t].pc.Finished?
      modifies this
      ensures GoesOn()
      ensures if r.Preempted? then schedule == old(schedule) == [] && s == old(s) else |schedule| == |old(schedule)| - 1
      ensures r.Went? ==> t < |from.thr| == |s.thr| && from.thr[t] == old(s.thr[t]) && from.loops == s.loops
      ensures r.Went? ==> a.t == t && Enabled(from, a) && s == Apply(from, a)
      ensures r.Went? ==> |acts| > |old(acts)| && acts[|acts| - 1] == a && run[|acts| - 1] == from
    {
      from, a := s, Act(t, 0, false);
      if schedule == [] {
        return Preempted, from, a;
      }
      var slot := schedule[0];
      schedule := schedule[1..];
      LetOthersRun(t, slot.others);
      from, a := s, Act(t, slot.i, slot.spurious);
      if !Enabled(s, a) {
        assert Inv(s) && ThreadInv(s, s.thr[t]);
        a := Act(t, if s.thr[t].pc.Gather? then |s.barrier| - 1 else |s.central| - 1, slot.spurious);
      }
      Do(a);
      return Went(()), from, a;
    }
  }

  /** _wait_around: past it only when nobody is left to come; given up, if the thread got to move at all, only
      while it waits for somebody. */
  method WaitAround(m: Memory, t: nat) returns (r: Progress<()>)
    requires m.Valid() && t < |m.s.thr| && m.s.thr[t].pc == Arrive && m.s.thr[t].added == 0
    modifies m
    ensures m.GoesOn()
    ensures r.Went? ==> m.s.thr[t] == Next(m.s, m.s.thr[t], 0)
    ensures r.Went? ==> forall u :: 0 <= u < |m.s.thr| ==> !m.s.thr[u].pc.Arrive?
    ensures r.Preempted? ==> m.schedule == [] && (old(m.schedule) != [] ==> m.s.thr[t].pc.Gather?)
  {
    hide Inv;
    var went, from, a := m.Access(t);
    var _ :- went;
    var waiting := true;
    while waiting
      invariant m.GoesOn()
      invariant if waiting then m.s.thr[t].pc == Gather && m.s.thr[t].added == 0
                else m.s.thr[t] == Next(m.s, m.s.thr[t], 0) && forall u :: 0 <= u < |m.s.thr| ==> !m.s.thr[u].pc.Arrive?
      decreases |m.schedule|, waiting
    {
      went, from, a := m.Access(t);
      var _ :- went;
      waiting := from.barrier[a.i] != 0;
      if !waiting {
        NobodyMissing(m.s, a.i);
      }
    }
    return Went(());
  }

  lemma NobodyMissing(s: State, i: nat)
    requires Inv(s) && i < |s.barrier| && s.barrier[i] == 0
    ensures forall u :: 0 <= u < |s.thr| ==> !s.thr[u].pc.Arrive?
  {
    Sums.TotalBounds(Missing, s.thr);
  }

  /** Since action `past` a compare-and-swap of t has failed. */
  ghost predicate HasFailed(run: seq<State>, acts: seq<Act>, t: nat, past: nat) {
    exists k :: past <= k < |acts| && FailsAt(run, acts, t, k)
  }

  /** Action k is a compare-and-swap of t that is spurious or finds the word changed. */
  ghost predicate FailsAt(run: seq<State>, acts: seq<Act>, t: nat, k: nat) {
    && k < |acts| && k < |run| && acts[k].t == t && Enabled(run[k], acts[k])
    && run[k].thr[t].pc.WeakCas?
    && (acts[k].spurious || Newest(run[k].central) != run[k].thr[t].pc.expected)
  }

  lemma FailureStays(run: seq<State>, acts: seq<Act>, run': seq<State>, acts': seq<Act>, t: nat, past: nat)
    requires run <= run' && acts <= acts' && HasFailed(run, acts, t, past)
    ensures HasFailed(run', acts', t, past)
  {
    var k :| past <= k < |acts| && FailsAt(run, acts, t, k);
    assert FailsAt(run', acts', t, k);
  }

  /** The do-while body: read, and swap in the value above. */
  method TryToAdd(m: Memory, t: nat, i: nat) returns (r: Progress<bool>)
    requires m.Valid() && t < |m.s.thr| && i < m.s.loops && m.s.thr[t] == m.s.thr[t].(pc := Read, added := i)
    modifies m
    ensures m.GoesOn()
    ensures r.Preempted? ==> m.schedule == [] && |old(m.schedule)| < 2
    ensures r.Went? ==> |m.schedule| == |old(m.schedule)| - 2
    ensures r == Went(true) ==> m.s.thr[t] == Next(m.s, m.s.thr[t], i + 1)
    ensures r == Went(false) ==>
      m.s.thr[t] == m.s.thr[t].(pc := Read, added := i) && HasFailed(m.run, m.acts, t, |old(m.acts)|)
  {
    hide Inv;
    var went, from, a := m.Access(t);
    var _ :- went;
    var expected := from.central[a.i];
    assert m.s.thr[t].pc == WeakCas(expected) && m.s.thr[t].added == i;
    went, from, a := m.Access(t);
    var _ :- went;
    if !Succeeds(from, a) {
      assert FailsAt(m.run, m.acts, t, |m.acts| - 1);
    }
    return Went(Succeeds(from, a));
  }

  /** run_atomic_add_test: one successful compare-and-swap for every turn of the loop, and two accesses are
      enough for a turn unless a compare-and-swap fails. */
  method RunAtomicAddTest(m: Memory, t: nat) returns (r: Progress<()>)
    requires m.Valid() && t < |m.s.thr| && m.s.thr[t] == Next(m.s, m.s.thr[t], 0)
    modifies m
    ensures m.GoesOn()
    ensures r.Went? ==> m.s.thr[t].pc == Finished && m.s.thr[t].added == m.s.loops
    ensures r.Preempted? ==> m.schedule == []
    ensures r.Preempted? && |old(m.schedule)| >= 2 * m.s.loops ==> HasFailed(m.run, m.acts, t, |old(m.acts)|)
  {
    hide Inv, Memory.Valid, HasFailed;
    ghost var failed := false;
    for i := 0 to m.s.loops
      invariant m.GoesOn()
      invariant m.s.thr[t] == Next(m.s, m.s.thr[t], i)
      invariant |old(m.acts)| <= |m.acts| && |m.schedule| <= |old(m.schedule)|
      invariant failed ==> HasFailed(m.run, m.acts, t, |old(m.acts)|)
      invariant failed || |old(m.schedule)| - |m.schedule| == 2 * i
    {
      var swapped := false;
      while !swapped
        invariant m.GoesOn()
        invariant m.s.thr[t] == if swapped then Next(m.s, m.s.thr[t], i + 1) else m.s.thr[t].(pc := Read, added := i)
        invariant |old(m.acts)| <= |m.acts| && |m.schedule| <= |old(m.schedule)|
        invariant failed ==> HasFailed(m.run, m.acts, t, |old(m.acts)|)
        invariant failed || |old(m.schedule)| - |m.schedule| == 2 * if swapped then i + 1 else i
        decreases |m.schedule|, !swapped
      {
        ghost var run, acts := m.run, m.acts;
        var attempt := TryToAdd(m, t, i);
        if failed {
          FailureStays(run, acts, m.run, m.acts, t, |old(m.acts)|);
        } else if attempt == Went(false) {
          FailedSince(m.run, m.acts, t, |acts|, |old(m.acts)|);
          failed := true;
        }
        swapped :- attempt;
      }
    }
    return Went(());
  }

  lemma FailedSince(run: seq<State>, acts: seq<Act>, t: nat, past: nat, earlier: nat)
    requires HasFailed(run, acts, t, past) && earlier <= past
    ensures HasFailed(run, acts, t, earlier)
  {
  }
}
