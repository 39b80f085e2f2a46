/** The Windows non-recursive mutex: a recursive CRITICAL_SECTION plus an `owner` word that is read
    without holding the section, and the condition wait that plays through the same word.

    One action is one atomic access. `owner` is a modification order, and a thread may read any
    message not older than the newest one it has already seen: nothing but per-location coherence. */
module WindowsMutex {
  import opened Words
  import opened ThreadIds

  const EBUSY := 16
  const ETIMEDOUT := 138

  datatype Section = Free | Held(holder: nat, count: nat)

  /** How SleepConditionVariableCS comes back: by a signal or a spurious wakeup, or having failed. */
  datatype Ending = Success | TimedOut | Failed

  datatype PC =
    | Idle(rc: int)            // outside; rc is what the last operation returned
    | LockRead | LockEnter | LockWrite | SelfDeadlock
    | TryRead | TryEnter | TryWrite
    | UnlockAssert | UnlockClear | UnlockLeave | AssertFailed
    | WaitClear(timed: bool) | WaitSleep(timed: bool) | Asleep(timed: bool)
    | Reacquire(timed: bool, ending: Ending) | WaitRestore(timed: bool, ending: Ending)

  datatype Thread = Thread(pc: PC, view: nat)

  datatype State = State(ids: seq<Dword>, section: Section, owner: seq<Word>, thr: seq<Thread>)

  datatype Choice =
    | CallLock | CallTryLock | CallUnlock | CallWait(timed: bool)
    | Wake(ending: Ending)
    | Go(i: nat)               // the next access; i is the message a read returns

  datatype Act = Act(t: nat, c: Choice)

  predicate Holds(s: State, t: nat) {
    s.section.Held? && s.section.holder == t
  }

  predicate MayRead(s: State, t: nat, i: nat)
    requires t < |s.thr|
  {
    s.thr[t].view <= i < |s.owner|
  }

  function Enter(x: Section, t: nat): Section {
    if x.Free? then Held(t, 1) else Held(t, x.count + 1)
  }

  function Leave(x: Section): Section {
    if x.Free? || x.count <= 1 then Free else Held(x.holder, x.count - 1)
  }

  predicate CanEnter(s: State, t: nat) {
    s.section.Free? || s.section.holder == t
  }

  /** Callers unlock and wait only while they hold the mutex; nothing else is asked of them. */
  predicate Enabled(s: State, a: Act) {
    && a.t < |s.thr| == |s.ids|
    && match s.thr[a.t].pc
       case Idle(_) =>
         || a.c.CallLock? || a.c.CallTryLock?
         || ((a.c.CallUnlock? || a.c.CallWait?) && Holds(s, a.t))
       case LockRead => a.c.Go? && MayRead(s, a.t, a.c.i)
       case TryRead => a.c.Go? && MayRead(s, a.t, a.c.i)
       case UnlockAssert => a.c.Go? && MayRead(s, a.t, a.c.i)
       case LockEnter => a.c.Go? && CanEnter(s, a.t)
       case Reacquire(_, _) => a.c.Go? && CanEnter(s, a.t)
       case SelfDeadlock => false
       case AssertFailed => false
       case Asleep(_) => a.c.Wake?
       case _ => a.c.Go?
  }

  function SetPC(s: State, t: nat, pc: PC): State
    requires t < |s.thr|
  {
    s.(thr := s.thr[t := s.thr[t].(pc := pc)])
  }

  function ReadTo(s: State, t: nat, i: nat, pc: PC): State
    requires t < |s.thr|
  {
    s.(thr := s.thr[t := Thread(pc, i)])
  }

  function WriteTo(s: State, t: nat, value: Word, pc: PC): State
    requires t < |s.thr|
  {
    s.(owner := s.owner + [value], thr := s.thr[t := Thread(pc, |s.owner|)])
  }

  /** What a wait makes of the outcome of its sleep. */
  function ResultOf(timed: bool, ending: Ending): int {
    if ending.Success? then 0 else if timed && ending.TimedOut? then ETIMEDOUT else -1
  }

  function Apply(s: State, a: Act): State
    requires Enabled(s, a)
  {
    var t, self := a.t, Id(s.ids, a.t);
    match s.thr[t].pc
    case Idle(_) =>
      SetPC(s, t, match a.c
                  case CallLock => LockRead
                  case CallTryLock => TryRead
                  case CallUnlock => UnlockAssert
                  case CallWait(timed) => WaitClear(timed))
    case LockRead => ReadTo(s, t, a.c.i, if s.owner[a.c.i] == self then SelfDeadlock else LockEnter)
    case LockEnter => SetPC(s, t, LockWrite).(section := Enter(s.section, t))
    case LockWrite => WriteTo(s, t, self, Idle(0))
    case TryRead => ReadTo(s, t, a.c.i, if s.owner[a.c.i] == self then Idle(EBUSY) else TryEnter)
    case TryEnter =>
      if CanEnter(s, t) then SetPC(s, t, TryWrite).(section := Enter(s.section, t))
      else SetPC(s, t, Idle(EBUSY))
    case TryWrite => WriteTo(s, t, self, Idle(0))
    case UnlockAssert => ReadTo(s, t, a.c.i, if s.owner[a.c.i] == self then UnlockClear else AssertFailed)
    case UnlockClear => WriteTo(s, t, 0, UnlockLeave)
    case UnlockLeave => SetPC(s, t, Idle(0)).(section := Leave(s.section))
    case WaitClear(timed) => WriteTo(s, t, 0, WaitSleep(timed))
    case WaitSleep(timed) => SetPC(s, t, Asleep(timed)).(section := Leave(s.section))
    case Asleep(timed) => SetPC(s, t, Reacquire(timed, a.c.ending))
    case Reacquire(timed, ending) => SetPC(s, t, WaitRestore(timed, ending)).(section := Enter(s.section, t))
    case WaitRestore(timed, ending) => WriteTo(s, t, self, Idle(ResultOf(timed, ending)))
  }

  ghost predicate Init(s: State) {
    && |s.ids| == |s.thr| && GoodIds(s.ids)
    && s.section == Free && s.owner == [0]
    && forall t :: 0 <= t < |s.thr| ==> s.thr[t] == Thread(Idle(0), 0)
  }

  ghost predicate IsRun(run: seq<State>, acts: seq<Act>) {
    && |run| == |acts| + 1
    && Init(run[0])
    && forall k :: 0 <= k < |acts| ==> Enabled(run[k], acts[k]) && run[k + 1] == Apply(run[k], acts[k])
  }

  // ---- the invariant ----

  /** Program points at which the thread is inside the section whatever it did before. */
  predicate InSection(pc: PC) {
    pc.LockWrite? || pc.TryWrite? || pc.UnlockAssert? || pc.UnlockClear? || pc.UnlockLeave?
    || pc.WaitClear? || pc.WaitSleep? || pc.WaitRestore? || pc.SelfDeadlock?
  }

  predicate OutOfSection(pc: PC) {
    pc.LockEnter? || pc.TryEnter? || pc.Asleep? || pc.Reacquire?
  }

  /** Program points at which a holder has its id in `owner`. */
  predicate Published(pc: PC) {
    !OutOfSection(pc) && !pc.LockWrite? && !pc.TryWrite? && !pc.UnlockLeave? && !pc.WaitSleep? && !pc.WaitRestore?
  }

  predicate Owns(s: State, t: nat)
    requires t < |s.thr|
  {
    Holds(s, t) && Published(s.thr[t].pc)
  }

  ghost predicate ThreadInv(s: State, t: nat) {
    && t < |s.thr| == |s.ids| && |s.owner| > 0
    && var th := s.thr[t];
    && th.view < |s.owner|
    && !th.pc.AssertFailed?
    && (InSection(th.pc) ==> Holds(s, t))
    && (OutOfSection(th.pc) ==> !Holds(s, t))
    && (if Owns(s, t) then th.view == |s.owner| - 1 && s.owner[th.view] == Id(s.ids, t)
        else forall i :: th.view <= i < |s.owner| ==> s.owner[i] != Id(s.ids, t))
  }

  ghost predicate Inv(s: State) {
    && |s.thr| == |s.ids| && GoodIds(s.ids) && |s.owner| > 0
    && (s.section.Held? ==> s.section.holder < |s.thr| && s.section.count == 1)
    && (forall t :: 0 <= t < |s.thr| ==> ThreadInv(s, t))
    && s.owner[|s.owner| - 1] ==
       if s.section.Held? && Owns(s, s.section.holder) then Id(s.ids, s.section.holder) else 0
  }

  /** A step of t leaves every other thread's part of the invariant alone. */
  lemma OthersKeepInv(s: State, a: Act, u: nat)
    requires Inv(s) && Enabled(s, a) && u < |s.thr| && u != a.t
    ensures ThreadInv(Apply(s, a), u)
  {
    IdsAreDistinct(s.ids);
    var s' := Apply(s, a);
    assert ThreadInv(s, u) && ThreadInv(s, a.t);
    assert Holds(s', u) == Holds(s, u);
    assert s'.thr[u] == s.thr[u];
  }

  lemma SelfKeepsInv(s: State, a: Act)
    requires Inv(s) && Enabled(s, a)
    ensures ThreadInv(Apply(s, a), a.t)
  {
    IdsAreDistinct(s.ids);
    assert ThreadInv(s, a.t);
  }

  lemma StepKeepsInv(s: State, a: Act)
    requires Inv(s) && Enabled(s, a)
    ensures Inv(Apply(s, a))
  {
    IdsAreDistinct(s.ids);
    var s' := Apply(s, a);
    SelfKeepsInv(s, a);
    forall u | 0 <= u < |s'.thr| ensures ThreadInv(s', u) {
      if u != a.t { OthersKeepInv(s, a, u); }
    }
    SharedKeepsInv(s, a);
  }

  lemma SharedKeepsInv(s: State, a: Act)
    requires Inv(s) && Enabled(s, a)
    ensures var s' := Apply(s, a);
      && (s'.section.Held? ==> s'.section.holder < |s'.thr| && s'.section.count == 1)
      && s'.owner[|s'.owner| - 1] ==
         if s'.section.Held? && Owns(s', s'.section.holder) then Id(s'.ids, s'.section.holder) else 0
  {
    IdsAreDistinct(s.ids);
    assert ThreadInv(s, a.t);
  }

  lemma {:induction false} RunKeepsInv(run: seq<State>, acts: seq<Act>)
    requires IsRun(run, acts)
    ensures forall k :: 0 <= k < |run| ==> Inv(run[k])
  {
    if |acts| == 0 {
      IdsAreDistinct(run[0].ids);
      assert forall t :: 0 <= t < |run[0].thr| ==> ThreadInv(run[0], t);
    } else {
      var n := |acts|;
      RunKeepsInv(run[..n], acts[..n - 1]);
      assert Inv(run[..n][n - 1]);
      StepKeepsInv(run[n - 1], acts[n - 1]);
      assert forall k :: 0 <= k < n ==> run[k] == run[..n][k];
    }
  }

  // ---- what callers may rely on, in every run ----

  /** The section is never entered twice, is entered exactly once at every sleep, and a coherent read
      of `owner`, however stale, shows a thread its own id exactly when it owns the mutex. */
  lemma MutexSafety(run: seq<State>, acts: seq<Act>, k: nat)
    requires IsRun(run, acts) && k < |run|
    ensures var s := run[k];
      && |s.thr| == |s.ids|
      && (s.section.Held? ==> s.section.count == 1)
      && (forall t :: 0 <= t < |s.thr| ==> !s.thr[t].pc.AssertFailed?)
      && (forall t :: 0 <= t < |s.thr| && s.thr[t].pc.WaitSleep? ==> s.section == Held(t, 1))
      && (forall t :: 0 <= t < |s.thr| && s.thr[t].pc.Asleep? ==> !Holds(s, t))
      && (forall t, i: nat :: 0 <= t < |s.thr| && MayRead(s, t, i) ==>
            (s.owner[i] == Id(s.ids, t) <==> Holds(s, t) && Published(s.thr[t].pc)))
  {
    RunKeepsInv(run, acts);
    var s := run[k];
    assert Inv(s);
    forall t, i: nat | 0 <= t < |s.thr| && MayRead(s, t, i)
      ensures s.owner[i] == Id(s.ids, t) <==> Holds(s, t) && Published(s.thr[t].pc)
    {
      assert ThreadInv(s, t);
    }
    forall t | 0 <= t < |s.thr|
      ensures !s.thr[t].pc.AssertFailed?
      ensures s.thr[t].pc.WaitSleep? ==> s.section == Held(t, 1)
      ensures s.thr[t].pc.Asleep? ==> !Holds(s, t)
    {
      assert ThreadInv(s, t);
    }
  }

  /** The unlocked check takes its branch exactly when the caller already holds the mutex: lock then
      deadlocks on itself and trylock reports busy without touching the section. */
  lemma ReentryIsDetectedExactly(run: seq<State>, acts: seq<Act>, k: nat)
    requires IsRun(run, acts) && k < |acts|
    ensures var s, s', t := run[k], run[k + 1], acts[k].t;
      && (s.thr[t].pc.LockRead? ==> (s'.thr[t].pc == SelfDeadlock <==> Holds(s, t)))
      && (s.thr[t].pc.TryRead? ==> (s'.thr[t].pc == Idle(EBUSY) <==> Holds(s, t)))
      && (s.thr[t].pc.TryEnter? ==> (s'.thr[t].pc == Idle(EBUSY) <==> s.section.Held?))
  {
    RunKeepsInv(run, acts);
    assert Inv(run[k]) && ThreadInv(run[k], acts[k].t);
  }

  /** The ending a wait goes by is the one its sleep had. */
  lemma EndingIsTheSleeps(run: seq<State>, acts: seq<Act>, k: nat)
    requires IsRun(run, acts) && k < |acts|
    ensures var pc, pc' := run[k].thr[acts[k].t].pc, run[k + 1].thr[acts[k].t].pc;
      && (pc.Asleep? ==> acts[k].c.Wake? && pc' == Reacquire(pc.timed, acts[k].c.ending))
      && (pc.Reacquire? ==> pc' == WaitRestore(pc.timed, pc.ending))
  {
  }

  /** Whatever ended the sleep, the wait returns with the section held once and `owner` restored. It returns 0
      exactly after a success, ETIMEDOUT exactly if a timed sleep has timed out, and else -1. */
  lemma WaitReturnsOwning(run: seq<State>, acts: seq<Act>, k: nat)
    requires IsRun(run, acts) && k < |acts| && run[k].thr[acts[k].t].pc.WaitRestore?
    ensures var s', t, pc := run[k + 1], acts[k].t, run[k].thr[acts[k].t].pc;
      && s'.thr[t].pc.Idle?
      && (s'.thr[t].pc.rc == 0 <==> pc.ending.Success?)
      && (s'.thr[t].pc.rc == ETIMEDOUT <==> pc.ending.TimedOut? && pc.timed)
      && (s'.thr[t].pc.rc == -1 <==> pc.ending.Failed? || (pc.ending.TimedOut? && !pc.timed))
      && s'.section == Held(t, 1)
      && s'.owner[|s'.owner| - 1] == Id(s'.ids, t)
  {
    RunKeepsInv(run, acts);
    assert Inv(run[k]) && ThreadInv(run[k], acts[k].t);
  }

  // ---- stale reads of `owner` ----

  /** t is about to read `owner`, and message i, which it may read, is not what `owner` holds by now. */
  predicate StaleIn(s: State, t: nat, i: nat) {
    && t < |s.thr| && (s.thr[t].pc.LockRead? || s.thr[t].pc.TryRead? || s.thr[t].pc.UnlockAssert?)
    && MayRead(s, t, i) && s.owner[i] != s.owner[|s.owner| - 1]
  }

  ghost predicate NeverStale(ids: seq<Dword>) {
    forall run: seq<State>, acts: seq<Act>, k: nat, t: nat, i: nat ::
      IsRun(run, acts) && run[0].ids == ids && k < |run| ==> !StaleIn(run[k], t, i)
  }

  lemma {:induction false} AloneSeesNewest(run: seq<State>, acts: seq<Act>, k: nat)
    requires IsRun(run, acts) && k < |run| && |run[0].ids| <= 1
    ensures |run[k].thr| == |run[0].ids| && |run[k].owner| > 0
    ensures forall t :: 0 <= t < |run[k].thr| ==> run[k].thr[t].view == |run[k].owner| - 1
  {
    if k == 0 {
    } else {
      AloneSeesNewest(run, acts, k - 1);
    }
  }

  lemma Extended(run: seq<State>, acts: seq<Act>, a: Act) returns (run': seq<State>, acts': seq<Act>)
    requires IsRun(run, acts) && Enabled(run[|acts|], a)
    ensures IsRun(run', acts') && |acts'| == |acts| + 1
    ensures run'[0] == run[0] && run'[|acts'|] == Apply(run[|acts|], a)
  {
    hide Init, Apply, Enabled;
    run', acts' := run + [Apply(run[|acts|], a)], acts + [a];
  }

  /** Thread 0 stands before its read, and thread 1 has the mutex. */
  lemma OtherHasLocked(ids: seq<Dword>) returns (run: seq<State>, acts: seq<Act>)
    requires GoodIds(ids) && |ids| >= 2
    ensures IsRun(run, acts) && run[0].ids == ids == run[|acts|].ids
    ensures var s := run[|acts|];
      && |s.thr| == |ids| && s.owner == [0, Id(ids, 1)] && s.section == Held(1, 1)
      && s.thr[0] == Thread(LockRead, 0) && s.thr[1] == Thread(Idle(0), 1)
  {
    IdsAreDistinct(ids);
    run, acts := [State(ids, Free, [0], seq(|ids|, _ => Thread(Idle(0), 0)))], [];
    hide Init, IsRun;
    run, acts := Extended(run, acts, Act(0, CallLock));
    run, acts := Extended(run, acts, Act(1, CallLock));
    run, acts := Extended(run, acts, Act(1, Go(0)));
    run, acts := Extended(run, acts, Act(1, Go(0)));
    run, acts := Extended(run, acts, Act(1, Go(0)));
  }

  /** A thread outside the mutex can see an owner that is none any more: while it stands before the read,
      another thread locks and unlocks. */
  lemma OutsiderSeesStaleOwner(ids: seq<Dword>) returns (run: seq<State>, acts: seq<Act>)
    requires GoodIds(ids) && |ids| >= 2
    ensures IsRun(run, acts) && run[0].ids == ids
    ensures StaleIn(run[|acts|], 0, 1) && run[|acts|].section.Free? && run[|acts|].owner[1] == Id(ids, 1)
  {
    IdsAreDistinct(ids);
    run, acts := OtherHasLocked(ids);
    run, acts := Extended(run, acts, Act(1, CallUnlock));
    run, acts := Extended(run, acts, Act(1, Go(1)));
    run, acts := Extended(run, acts, Act(1, Go(0)));
    run, acts := Extended(run, acts, Act(1, Go(0)));
  }

  /** So reads of `owner` are never stale if and only if there are no two threads. */
  lemma NeverStaleExactlyAlone(ids: seq<Dword>)
    requires GoodIds(ids)
    ensures NeverStale(ids) <==> |ids| <= 1
  {
    if |ids| <= 1 {
      forall run: seq<State>, acts: seq<Act>, k: nat, t: nat, i: nat | IsRun(run, acts) && run[0].ids == ids
          && k < |run|
        ensures !StaleIn(run[k], t, i)
      {
        AloneSeesNewest(run, acts, k);
      }
    } else {
      var run, acts := OutsiderSeesStaleOwner(ids);
      assert StaleIn(run[|acts|], 0, 1);
    }
  }
}
