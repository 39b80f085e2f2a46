/** mulle_thread_tss_init called concurrently: the counter doubles as the lock for its own
    initialisation. One action is one interlocked operation. */
module TssInit {
  import opened Sums

  datatype PC =
    | Outside
    | Increment      // the InterlockedIncrement at the top of the loop
    | InitLock       // case 1: InitializeCriticalSection
    | MarkDone       // case 1: the second increment
    | BackOut        // case 2: decrement, yield and try again

  /** inits: calls of InitializeCriticalSection. returned: completed calls of mulle_thread_tss_init.
      early: some call has returned while the lock had not been initialised. */
  datatype State = State(inited: int, inits: nat, returned: nat, early: bool, thr: seq<PC>)

  function Return(s: State, t: nat): State
    requires t < |s.thr|
  {
    s.(returned := s.returned + 1, early := s.early || s.inits == 0, thr := s.thr[t := Outside])
  }

  /** The next action of thread t; outside, it is to call mulle_thread_tss_init (again). */
  function Apply(s: State, t: nat): State
    requires t < |s.thr|
  {
    match s.thr[t]
    case Outside => s.(thr := s.thr[t := Increment])
    case Increment =>
      var s' := s.(inited := s.inited + 1);
      (match s'.inited
       case 1 => s'.(thr := s.thr[t := InitLock])
       case 2 => s'.(thr := s.thr[t := BackOut])
       case _ => Return(s', t))
    case InitLock => s.(inits := s.inits + 1, thr := s.thr[t := MarkDone])
    case MarkDone => Return(s.(inited := s.inited + 1), t)
    case BackOut => s.(inited := s.inited - 1, thr := s.thr[t := Increment])
  }

  ghost predicate Init(s: State) {
    && s.inited == 0 && s.inits == 0 && s.returned == 0 && !s.early
    && forall t :: 0 <= t < |s.thr| ==> s.thr[t].Outside?
  }

  ghost predicate IsRun(run: seq<State>, acts: seq<nat>) {
    && |run| == |acts| + 1
    && Init(run[0])
    && forall k :: 0 <= k < |acts| ==> acts[k] < |run[k].thr| && run[k + 1] == Apply(run[k], acts[k])
  }

  /** What an initialisation routine owes its callers. */
  predicate Good(s: State) {
    s.inits <= 1 && !s.early
  }

  // ---- at most two first callers ----

  function Incrementing(pc: PC): nat { if pc.Increment? then 1 else 0 }
  function Locking(pc: PC): nat { if pc.InitLock? then 1 else 0 }
  function Marking(pc: PC): nat { if pc.MarkDone? then 1 else 0 }
  function Backing(pc: PC): nat { if pc.BackOut? then 1 else 0 }

  /** Threads that are inside the call. */
  function Inside(s: State): nat {
    Total(Incrementing, s.thr) + Total(Locking, s.thr) + Total(Marking, s.thr) + Total(Backing, s.thr)
  }

  ghost predicate Inv(s: State) {
    var locking, marking, backing := Total(Locking, s.thr), Total(Marking, s.thr), Total(Backing, s.thr);
    && !s.early
    && if s.returned == 0 then
         && locking + marking <= 1 && (backing > 0 ==> locking + marking == 1)
         && s.inited == locking + marking + backing && s.inits == marking
       else locking + marking == 0 && s.inits == 1 && s.inited == s.returned + 1 + backing
  }

  lemma IncrementKeepsInv(s: State, t: nat)
    requires Inv(s) && t < |s.thr| && s.thr[t].Increment?
    requires s.returned == 0 ==> Inside(s) <= 2
    ensures Inv(Apply(s, t))
  {
    var pc := Apply(s, t).thr[t];
    TotalUpdate(Locking, s.thr, t, pc);
    TotalUpdate(Marking, s.thr, t, pc);
    TotalUpdate(Backing, s.thr, t, pc);
    TotalBounds(Incrementing, s.thr);
  }

  lemma OtherStepsKeepInv(s: State, t: nat)
    requires Inv(s) && t < |s.thr| && !s.thr[t].Increment?
    ensures Inv(Apply(s, t))
  {
    var pc := Apply(s, t).thr[t];
    TotalUpdate(Locking, s.thr, t, pc);
    TotalUpdate(Marking, s.thr, t, pc);
    TotalUpdate(Backing, s.thr, t, pc);
    TotalBounds(Marking, s.thr);
  }

  lemma StepKeepsInv(s: State, t: nat)
    requires Inv(s) && t < |s.thr|
    requires s.returned == 0 ==> Inside(s) <= 2
    ensures Inv(Apply(s, t))
  {
    hide Inv, Apply;
    if s.thr[t].Increment? { IncrementKeepsInv(s, t); } else { OtherStepsKeepInv(s, t); }
  }

  /** Until a call has returned, at most two threads are inside the routine. */
  ghost predicate TwoFirstCallers(run: seq<State>) {
    forall k :: 0 <= k < |run| && run[k].returned == 0 ==> Inside(run[k]) <= 2
  }

  lemma {:induction false} RunKeepsInv(run: seq<State>, acts: seq<nat>)
    requires IsRun(run, acts) && TwoFirstCallers(run)
    ensures forall k :: 0 <= k < |run| ==> Inv(run[k])
  {
    if |acts| == 0 {
      TotalBounds(Locking, run[0].thr);
      TotalBounds(Marking, run[0].thr);
      TotalBounds(Backing, run[0].thr);
    } else {
      var n := |acts|;
      RunKeepsInv(run[..n], acts[..n - 1]);
      assert Inv(run[..n][n - 1]);
      StepKeepsInv(run[n - 1], acts[n - 1]);
      assert forall k :: 0 <= k < n ==> run[k] == run[..n][k];
    }
  }

  /** With two first callers and any number later: the lock is initialised exactly once, before any call
      returns, and whenever no call is in progress after a completed one, the counter is one more than
      the completed calls. */
  lemma TwoFirstCallersAreSafe(run: seq<State>, acts: seq<nat>, k: nat)
    requires IsRun(run, acts) && TwoFirstCallers(run) && k < |run|
    ensures Good(run[k])
    ensures run[k].returned > 0 ==> run[k].inits == 1
    ensures run[k].returned > 0 && Inside(run[k]) == 0 ==> run[k].inited == run[k].returned + 1
  {
    RunKeepsInv(run, acts);
    assert Inv(run[k]);
  }

  lemma {:induction false} InsideIsBounded(thr: seq<PC>)
    ensures Total(Incrementing, thr) + Total(Locking, thr) + Total(Marking, thr) + Total(Backing, thr) <= |thr|
  {
    if |thr| == 0 {
    } else {
      InsideIsBounded(thr[1..]);
    }
  }

  lemma {:induction false} ThreadsAreFixed(run: seq<State>, acts: seq<nat>, k: nat)
    requires IsRun(run, acts) && k < |run|
    ensures |run[k].thr| == |run[0].thr|
  {
    if k == 0 {
    } else {
      ThreadsAreFixed(run, acts, k - 1);
    }
  }

  // ---- three or more ----

  ghost predicate SafeFor(n: nat) {
    forall run: seq<State>, acts: seq<nat>, k: nat :: IsRun(run, acts) && |run[0].thr| == n && k < |run| ==>
      Good(run[k])
  }

  /** While one thread initialises, a second lifts the counter to 2 on its way to backing out; a third
      then reads 3 and returns without a lock. */
  lemma ThirdRacerReturnsEarly(n: nat) returns (run: seq<State>, acts: seq<nat>)
    requires n >= 3
    ensures IsRun(run, acts) && |run[0].thr| == n && run[|acts|].early && run[|acts|].inits == 0
  {
    var s0 := State(0, 0, 0, false, seq(n, _ => Outside));
    var s1 := Apply(s0, 0);
    var s2 := Apply(s1, 0);
    var s3 := Apply(s2, 1);
    var s4 := Apply(s3, 1);
    var s5 := Apply(s4, 2);
    var s6 := Apply(s5, 2);
    run, acts := [s0, s1, s2, s3, s4, s5, s6], [0, 0, 1, 1, 2, 2];
    assert s2.inited == 1 && s4.inited == 2 && s6.inited == 3;
  }

  /** The routine keeps its promise in every run exactly when at most two threads can be in it. */
  lemma SafeExactlyForTwo(n: nat)
    ensures SafeFor(n) <==> n <= 2
  {
    if n <= 2 {
      forall run: seq<State>, acts: seq<nat>, k: nat | IsRun(run, acts) && |run[0].thr| == n && k < |run|
        ensures Good(run[k]) {
        forall j | 0 <= j < |run| ensures Inside(run[j]) <= 2 {
          ThreadsAreFixed(run, acts, j);
          InsideIsBounded(run[j].thr);
        }
        TwoFirstCallersAreSafe(run, acts, k);
      }
    } else {
      var run, acts := ThirdRacerReturnsEarly(n);
      assert !Good(run[|acts|]);
    }
  }
}

/** mulle_thread_tss_init in the shape of the source, running on the machine of module TssInit under every
    schedule. */
module TssInitCode {
  import opened Scheduling
  import opened TssInit

  class Memory {
    var s: State
    var schedule: seq<seq<nat>>   // who goes first, before each own operation
    ghost var run: seq<State>
    ghost var acts: seq<nat>

    ghost predicate Valid()
      reads this
    {
      IsRun(run, acts) && run[|acts|] == s
    }

    constructor (start: State, schedule: seq<seq<nat>>)
      requires Init(start)
      ensures Valid() && s == start && this.schedule == schedule && acts == []
    {
      s, run, acts := start, [start], [];
      this.schedule := schedule;
    }

    /** The run goes on from where it was. */
    twostate predicate GoesOn()
      reads this
    {
      && Valid() && old(run) <= run && old(acts) <= acts && |s.thr| == |old(s.thr)|
      && s.returned >= old(s.returned)
    }

    /** The last step of the run is the return of a call of t. */
    ghost predicate JustReturned(t: nat)
      reads this
    {
      && |acts| > 0 && acts[|acts| - 1] == t && |run| > 1
      && run[|run| - 1].returned == run[|run| - 2].returned + 1
    }

    method Do(t: nat)
      requires Valid() && t < |s.thr|
      modifies this`s, this`run, this`acts
      ensures Valid() && s == Apply(old(s), t) && |s.thr| == |old(s.thr)|
      ensures run == old(run) + [s] && acts == old(acts) + [t] && s.returned >= old(s.returned)
      ensures forall u :: 0 <= u < |s.thr| && u != t ==> s.thr[u] == old(s.thr[u])
    {
      s := Apply(s, t);
      run, acts := run + [s], acts + [t];
    }

    /** The thread's next interlocked operation or initialisation, others going first; the result is
        the state it was made in. */
    method Step(t: nat) returns (r: Progress<State>)
      requires Valid() && t < |s.thr|
      modifies this
      ensures GoesOn()
      ensures if r.Preempted? then schedule == old(schedule) == [] else |schedule| == |old(schedule)| - 1
      ensures r.Went? ==> |r.value.thr| == |s.thr| && r.value.thr[t] == old(s.thr[t]) && s == Apply(r.value, t)
      ensures r.Went? ==> |run| > |old(run)| && |run| > 1 && run[|run| - 1] == s && run[|run| - 2] == r.value
      ensures r.Went? ==> |acts| > |old(acts)| && acts[|acts| - 1] == t && r.value.returned >= old(s.returned)
    {
      if schedule == [] {
        return Preempted;
      }
      var others := schedule[0];
      schedule := schedule[1..];
      for k := 0 to |others|
        invariant GoesOn() && s.thr[t] == old(s.thr[t])
        invariant |schedule| == |old(schedule)| - 1
      {
        if others[k] != t && others[k] < |s.thr| {
          Do(others[k]);
        }
      }
      var from := s;
      Do(t);
      return Went(from);
    }
  }

  /** In one of the states of the run from `past` on, t has met a competing initialiser. */
  ghost predicate HasMetAnother(run: seq<State>, t: nat, past: nat) {
    exists k :: past <= k < |run| && t < |run[k].thr| && run[k].thr[t].BackOut?
  }

  lemma LockIsThere(m: Memory)
    requires m.Valid() && TwoFirstCallers(m.run) && m.s.returned > 0
    ensures m.s.inits == 1 && m.s.inited >= m.s.returned + 1
  {
    RunKeepsInv(m.run, m.acts);
    assert Inv(m.s);
  }

  /** Case 1: the lock is initialised, and the counter says so. */
  method InitializeLock(m: Memory, t: nat) returns (r: Progress<()>)
    requires m.Valid() && t < |m.s.thr| && m.s.thr[t].InitLock?
    modifies m
    ensures m.GoesOn()
    ensures r.Went? ==> m.s.thr[t].Outside? && m.s.returned > old(m.s.returned)
    ensures r.Went? ==> |m.acts| > |old(m.acts)| && m.JustReturned(t)
    ensures if r.Preempted? then m.schedule == [] && |old(m.schedule)| < 2 else |m.schedule| == |old(m.schedule)| - 2
  {
    hide Memory.Valid;
    var _ :- m.Step(t);
    var _ :- m.Step(t);
    return Went(());
  }

  /** If there have been at most two first callers, the lock is there when the call returns. Three slots are
      enough for the call unless it meets a competing initialiser. */
  method Initialise(m: Memory, t: nat) returns (r: Progress<()>)
    requires m.Valid() && t < |m.s.thr| && m.s.thr[t].Outside?
    modifies m
    ensures m.GoesOn()
    ensures r.Went? ==> m.s.thr[t].Outside? && m.s.returned > old(m.s.returned)
    ensures r.Went? ==> |m.acts| > |old(m.acts)| && m.JustReturned(t)
    ensures r.Went? && TwoFirstCallers(m.run) ==> m.s.inits == 1 && m.s.inited >= m.s.returned + 1
    ensures r.Preempted? ==> m.schedule == []
    ensures r.Preempted? && |old(m.schedule)| >= 3 ==> HasMetAnother(m.run, t, |old(m.run)|)
  {
    hide Memory.Valid, TwoFirstCallers;
    m.Do(t);
    ghost var met := false;
    while true
      invariant m.GoesOn() && m.s.thr[t].Increment? && |m.acts| > |old(m.acts)|
      invariant (met ==> HasMetAnother(m.run, t, |old(m.run)|))
      invariant met || m.schedule == old(m.schedule)
      decreases |m.schedule|
    {
      var from :- m.Step(t);
      var inited := from.inited + 1;
      if inited == 2 {
        met := true;
        assert m.s.thr[t].BackOut? && m.run[|m.run| - 1] == m.s;
        var _ :- m.Step(t);
      } else {
        if inited == 1 {
          var _ :- InitializeLock(m, t);
        }
        if TwoFirstCallers(m.run) { LockIsThere(m); }
        return Went(());
      }
    }
  }
}
