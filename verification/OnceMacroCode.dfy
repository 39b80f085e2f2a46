/** mulle_thread_once_do and mulle_thread_once_do_noblock as the nested loops they expand to, running on
    the machine of module OnceMacros under every schedule. */
module OnceMacroCode {
  import opened Scheduling
  import opened Once
  import opened OnceMacros

  /** What the others do before a thread's next access, and the message that it prefers to read. */
  datatype Slot = Slot(others: seq<MAct>, i: nat)

  predicate InStatement(s: MState, t: nat) {
    t < |s.thr| && s.thr[t].ctl.Block?
  }

  /** In one of the states of the run from `past` on, t is in the statement. */
  ghost predicate RanStatement(run: seq<MState>, t: nat, past: nat) {
    exists k :: past <= k < |run| && InStatement(run[k], t)
  }

  lemma StillRan(run: seq<MState>, run': seq<MState>, t: nat, past: nat)
    requires run <= run' && RanStatement(run, t, past)
    ensures RanStatement(run', t, past)
  {
    var k :| past <= k < |run| && InStatement(run[k], t);
    assert InStatement(run'[k], t);
  }

  lemma NeverRan(run: seq<MState>, t: nat, past: nat)
    requires forall k :: past <= k < |run| ==> !InStatement(run[k], t)
    ensures !RanStatement(run, t, past)
  {
  }

  lemma RunsNow(run: seq<MState>, t: nat, past: nat)
    requires past < |run| && InStatement(run[|run| - 1], t)
    ensures RanStatement(run, t, past)
  {
  }

  /** The data are written by the one that runs init, and by nobody before somebody does; the word only
      gets longer. */
  lemma DataStay(s: MState, a: MAct, t: nat)
    requires MInv(s) && MEnabled(s, a) && t < |s.thr| && a.t != t
    ensures |s.word| <= |MApply(s, a).word|
    ensures MWinner(s, t) ==> MApply(s, a).data == s.data
    ensures |MApply(s, a).word| == 1 ==> |s.word| == 1 && MApply(s, a).data == s.data
  {
    StepRefines(s, a);
    var todo := Performs(s, a);
    assert ThreadInv(Abs(s), Abs(s).thr[t]) && ThreadInv(Abs(s), Abs(s).thr[a.t]);
    if |todo| == 1 { SharedEffect(Abs(s), todo[0]); }
    hide MApply, MEnabled, Performs, Apply, Enabled;
  }

  lemma WordGrows(s: MState, a: MAct)
    requires MInv(s) && MEnabled(s, a)
    ensures |s.word| <= |MApply(s, a).word|
  {
    StepRefines(s, a);
    var todo := Performs(s, a);
    if |todo| == 1 { StepGrows(Abs(s), todo[0]); }
    hide MApply, MEnabled, Performs, Apply, Enabled;
  }

  /** What a thread's own compare-and-swap does; the first one, and the one that publishes. */
  lemma CasShows(s: MState, t: nat, i: nat)
    requires MInv(s) && MEnabled(s, MAct(t, MChoice.Go(i))) && (s.thr[t].ctl.OuterInit? || s.thr[t].ctl.OuterStepCas?)
    ensures i < |s.word| && |MApply(s, MAct(t, MChoice.Go(i))).thr| == |s.thr|
    ensures var s', ctl, actual := MApply(s, MAct(t, MChoice.Go(i))), s.thr[t].ctl, s.word[i].value;
      && s'.thr[t].calls == s.thr[t].calls && s'.data == s.data && s'.initLen == s.initLen
      && s'.thr[t].ctl == OuterTest(ctl.kind, if ctl.OuterInit? then actual else DONE)
      && actual in {DATA, BUSY, DONE} && (actual != DATA ==> |s.word| >= 2)
      && (ctl.OuterInit? && actual == DATA ==> |s.word| == 1)
      && (ctl.OuterStepCas? && ctl.actual == DATA ==> |s'.word| == 3)
  {
    assert GoodControl(s.thr[t].ctl) && ThreadInv(Abs(s), Abs(s).thr[t]);
    hide Inv, Apply, Enabled;
  }

  class Memory {
    var s: MState
    var schedule: seq<Slot>
    ghost var run: seq<MState>
    ghost var acts: seq<MAct>

    ghost predicate Valid()
      reads this
    {
      |run| == |acts| + 1 && IsMRun(run, acts) && run[|acts|] == s && MInv(s)
    }

    /** Thread t is at the control point. */
    ghost predicate At(t: nat, ctl: Control)
      reads this
    {
      Valid() && t < |s.thr| && s.thr[t].ctl == ctl
    }

    /** The run goes on from where it was, and t has no call less to make than before. */
    twostate predicate GoesOn(t: nat)
      reads this
    {
      && Valid() && old(run) <= run && old(acts) <= acts && s.initLen == old(s.initLen) && |old(s.word)| <= |s.word|
      && t < |s.thr| == |old(s.thr)| && s.thr[t].calls == old(s.thr[t].calls)
    }

    /** t has not been in the statement meanwhile. */
    twostate predicate NotInStatement(t: nat)
      reads this
    {
      forall k :: |old(run)| <= k < |run| ==> !InStatement(run[k], t)
    }

    constructor (start: MState, schedule: seq<Slot>)
      requires MInit(start)
      ensures Valid() && s == start && this.schedule == schedule && acts == []
    {
      AllMInv([start], [], 0);
      s, run, acts := start, [start], [];
      this.schedule := schedule;
    }

    method Do(a: MAct)
      requires Valid() && MEnabled(s, a)
      modifies this`s, this`run, this`acts
      ensures Valid() && s == MApply(old(s), a) && acts == old(acts) + [a] && run == old(run) + [s]
      ensures |s.thr| == |old(s.thr)| && forall u :: 0 <= u < |s.thr| && u != a.t ==> s.thr[u] == old(s.thr[u])
      ensures s.initLen == old(s.initLen) && |old(s.word)| <= |s.word|
    {
      hide MInv, MApply;
      StepKeepsMInv(s, a);
      WordGrows(s, a);
      LengthIsFixed(s, a);
      s := MApply(s, a);
      run, acts := run + [s], acts + [a];
    }

    method LetOthersRun(t: nat, others: seq<MAct>)
      requires Valid() && t < |s.thr|
      modifies this`s, this`run, this`acts
      ensures GoesOn(t) && s.thr[t] == old(s.thr[t])
      ensures MWinner(s, t) || |s.word| == 1 ==> s.data == old(s.data)
      ensures !InStatement(s, t) ==> NotInStatement(t)
    {
      hide IsMRun, MInv, MApply, MEnabled;
      for k := 0 to |others|
        invariant GoesOn(t) && s.thr[t] == old(s.thr[t])
        invariant MWinner(s, t) || |s.word| == 1 ==> s.data == old(s.data)
        invariant !InStatement(s, t) ==> NotInStatement(t)
      {
        if others[k].t != t && MEnabled(s, others[k]) {
          DataStay(s, others[k], t);
          Do(others[k]);
        }
      }
    }

    /** The thread's turn comes, others having gone before. */
    method Turn(t: nat) returns (r: Progress<nat>)
      requires Valid() && t < |s.thr|
      modifies this
      ensures GoesOn(t) && s.thr[t] == old(s.thr[t])
      ensures MWinner(s, t) || |s.word| == 1 ==> s.data == old(s.data)
      ensures !InStatement(s, t) ==> NotInStatement(t)
      ensures if r.Preempted? then schedule == old(schedule) == [] && s == old(s) else |schedule| == |old(schedule)| - 1
    {
      hide IsMRun, MInv;
      if schedule == [] {
        return Preempted;
      }
      var slot := schedule[0];
      schedule := schedule[1..];
      LetOthersRun(t, slot.others);
      return Went(slot.i);
    }

    lemma Known(t: nat)
      requires Valid() && t < |s.thr|
      ensures GoodWord(Abs(s)) && ThreadInv(Abs(s), Abs(s).thr[t]) && GoodControl(s.thr[t].ctl)
    {
    }

    /** The compare-and-swap that initialises the outer loop. */
    method FirstCas(t: nat, kind: Kind) returns (r: Progress<int>)
      requires At(t, OuterInit(kind))
      modifies this
      ensures GoesOn(t) && NotInStatement(t)
      ensures r.Went? ==> At(t, OuterTest(kind, r.value)) && r.value in {DATA, BUSY, DONE}
      ensures r.Went? ==> if r.value == DATA then |old(s.word)| == 1 && s.data == old(s.data) else |s.word| >= 2
      ensures if r.Preempted? then schedule == old(schedule) == [] && s == old(s) else |schedule| == |old(schedule)| - 1
    {
      hide IsMRun, MInv, MApply;
      Known(t);
      var i :- Turn(t);
      Known(t);
      if !MayCas(Abs(s), t, DATA, i) {
        i := |s.word| - 1;
      }
      var actual := s.word[i].value;
      CasShows(s, t, i);
      Do(MAct(t, MChoice.Go(i)));
      return Went(actual);
    }

    /** The compare-and-swap of the outer increment clause; the winner's publishes. */
    method PublishCas(t: nat, kind: Kind, actual: int) returns (r: Progress<()>)
      requires At(t, OuterStepCas(kind, actual))
      modifies this
      ensures GoesOn(t) && NotInStatement(t)
      ensures r.Went? ==> At(t, OuterTest(kind, DONE))
      ensures r.Went? && actual == DATA ==> |s.word| == 3 && s.data == old(s.data)
      ensures if r.Preempted? then schedule == old(schedule) == [] && s == old(s) else |schedule| == |old(schedule)| - 1
    {
      hide IsMRun, MInv, MApply;
      var i :- Turn(t);
      Known(t);
      if !MayCas(Abs(s), t, BUSY, i) {
        i := |s.word| - 1;
      }
      CasShows(s, t, i);
      Do(MAct(t, MChoice.Go(i)));
      return Went(());
    }

    method Read(t: nat) returns (r: Progress<int>)
      requires At(t, SpinRead)
      modifies this
      ensures GoesOn(t) && NotInStatement(t)
      ensures r.Went? ==> At(t, if r.value == DONE then SpinFence else SpinRead)
      ensures if r.Preempted? then schedule == old(schedule) == [] && s == old(s) else |schedule| == |old(schedule)| - 1
    {
      hide IsMRun, MInv;
      var i :- Turn(t);
      Known(t);
      if !MayRead(Abs(s), t, i) {
        i := |s.word| - 1;
      }
      var value := s.word[i].value;
      Do(MAct(t, MChoice.Go(i)));
      return Went(value);
    }

    /** A step that concerns nobody but the thread: a loop's condition or increment, an `if`, a fence. */
    method Local(t: nat, ghost to: Control)
      requires Valid() && t < |s.thr| && LocalStep(s.thr[t].ctl, to, s.initLen)
      modifies this`s, this`run, this`acts
      ensures GoesOn(t) && At(t, to) && s.word == old(s.word) && s.data == old(s.data)
      ensures s.thr[t] == old(s.thr[t]).(ctl := to) && run == old(run) + [s]
    {
      hide MInv, IsMRun;
      Do(MAct(t, MChoice.Go(0)));
    }

    method Begin(t: nat, kind: Kind)
      requires At(t, Fun(Idle)) && s.thr[t].calls > 0
      modifies this`s, this`run, this`acts
      ensures At(t, OuterInit(kind)) && s.initLen == old(s.initLen) && s.word == old(s.word) && s.data == old(s.data)
      ensures s.thr[t].calls == old(s.thr[t].calls) - 1 && run == old(run) + [s] && old(acts) <= acts
      ensures |s.thr| == |old(s.thr)|
    {
      hide MInv, IsMRun;
      Do(MAct(t, MChoice.Call(kind, true)));
    }

    /** The outer condition is false. */
    method End(t: nat, kind: Kind, ghost actual: int)
      requires At(t, OuterTest(kind, actual)) && !Continues(kind, actual)
      modifies this`s, this`run, this`acts
      ensures GoesOn(t) && At(t, Fun(Idle)) && s.word == old(s.word) && s.data == old(s.data) && NotInStatement(t)
      ensures kind.Blocking? ==> |s.word| == 3 && s.thr[t].dview == |s.data| - 1
    {
      hide MInv, MApply, MEnabled, IsMRun;
      if kind.Blocking? {
        ThroughHasSeen(s, t);
      }
      Local(t, Fun(Idle));
    }

    /** The user's statement, left in any of the ways it can be; nobody else writes meanwhile. */
    method RunStatement(t: nat, kind: Kind, values: seq<int>, exit: Exit) returns (r: Progress<()>)
      requires At(t, Block(kind, s.initLen)) && |values| <= s.initLen
      modifies this
      ensures GoesOn(t)
      ensures r.Went? ==> At(t, if exit.Break? then OuterStepFence(kind, DATA) else InnerStep(kind, DATA, 0))
      ensures r.Went? ==> s.data == old(s.data) + values
      ensures if r.Preempted? then schedule == [] && |old(schedule)| < |values|
              else |schedule| == |old(schedule)| - |values|
    {
      hide MInv, IsMRun;
      for k := 0 to |values|
        invariant GoesOn(t) && k <= old(s.initLen) && At(t, Block(kind, old(s.initLen) - k))
        invariant s.data == old(s.data) + values[..k] && |schedule| == |old(schedule)| - k
      {
        var _ :- Turn(t);
        Do(MAct(t, MChoice.Write(values[k])));
        assert values[..k + 1] == values[..k] + [values[k]];
      }
      assert values[..|values|] == values;
      Do(MAct(t, MChoice.Leave(exit)));
      return Went(());
    }
  }

  /** The loops' bookkeeping, as the machine has it. */
  predicate LocalStep(ctl: Control, to: Control, initLen: nat) {
    match ctl
    case OuterTest(kind, actual) => to == if Continues(kind, actual) then InnerTest(kind, actual, 0) else Fun(Idle)
    case InnerTest(kind, actual, j) =>
      to == if j >= 1 then OuterStepFence(kind, actual)
            else if kind.Blocking? then IfWaiting(actual) else Block(kind, initLen)
    case IfWaiting(actual) => to == if actual != DATA then SpinRead else Block(Blocking, initLen)
    case SpinFence => to == OuterStepFence(Blocking, BUSY)
    case InnerStep(kind, actual, j) => to == InnerTest(kind, actual, j + 1)
    case OuterStepFence(kind, actual) => to == OuterStepCas(kind, actual)
    case _ => false
  }

  /** The spin loop of the blocking macro, and the `break` behind it. */
  method WaitForDone(m: Memory, t: nat) returns (r: Progress<()>)
    requires m.At(t, SpinRead)
    modifies m
    ensures m.GoesOn(t) && m.NotInStatement(t) && |m.schedule| <= |old(m.schedule)|
    ensures r.Went? ==> m.At(t, OuterStepFence(Blocking, BUSY))
    ensures r.Preempted? ==> m.schedule == [] && m.At(t, SpinRead)
  {
    hide IsMRun, MApply, MEnabled, MInv, Memory.Valid;
    var value :- m.Read(t);
    while value != DONE
      invariant m.GoesOn(t) && m.NotInStatement(t)
      invariant m.At(t, if value == DONE then SpinFence else SpinRead) && |m.schedule| <= |old(m.schedule)|
      decreases |m.schedule|
    {
      value :- m.Read(t);
    }
    m.Local(t, OuterStepFence(Blocking, BUSY));
    return Went(());
  }

  /** The `if` of the blocking macro. */
  method Branch(m: Memory, t: nat, kind: Kind, actual: int)
    requires m.At(t, InnerTest(kind, actual, 0)) && (actual == DATA || (kind.Blocking? && actual == BUSY))
    modifies m`s, m`run, m`acts
    ensures m.GoesOn(t) && m.s.word == old(m.s.word) && m.s.data == old(m.s.data)
    ensures m.At(t, if actual != DATA then SpinRead else Block(kind, m.s.initLen))
    ensures |m.run| > |old(m.run)| && m.run[|m.run| - 1] == m.s
    ensures actual != DATA ==> m.NotInStatement(t)
  {
    hide IsMRun, MApply, MEnabled, MInv, Memory.Valid;
    if kind.Blocking? {
      m.Local(t, IfWaiting(actual));
      m.Local(t, if actual != DATA then SpinRead else Block(Blocking, m.s.initLen));
    } else {
      m.Local(t, Block(kind, m.s.initLen));
    }
  }

  /** The statement, and unless it is left by `break` the increment and the condition of the inner loop. */
  method ExecuteStatement(m: Memory, t: nat, kind: Kind, values: seq<int>, exit: Exit, ghost past: nat)
    returns (r: Progress<()>)
    requires m.At(t, Block(kind, m.s.initLen)) && |values| <= m.s.initLen
    requires past < |m.run| && m.run[|m.run| - 1] == m.s
    modifies m
    ensures m.GoesOn(t)
    ensures r.Went? ==> m.At(t, OuterStepFence(kind, DATA))
    ensures r.Went? ==> m.s.data == old(m.s.data) + values && RanStatement(m.run, t, past)
    ensures if r.Preempted? then m.schedule == [] && |old(m.schedule)| < |values|
            else |m.schedule| == |old(m.schedule)| - |values|
  {
    hide IsMRun, MApply, MEnabled, MInv, Memory.Valid, AsFunction, RanStatement;
    RunsNow(m.run, t, past);
    var _ :- m.RunStatement(t, kind, values, exit);
    if !exit.Break? {
      m.Local(t, InnerTest(kind, DATA, 1));
      m.Local(t, OuterStepFence(kind, DATA));
    }
    StillRan(old(m.run), m.run, t, past);
    return Went(());
  }

  /** The inner loop: the winner executes the statement, all others wait. */
  method StatementLoop(m: Memory, t: nat, kind: Kind, actual: int, values: seq<int>, exit: Exit)
    returns (r: Progress<()>)
    requires m.At(t, InnerTest(kind, actual, 0)) && |values| <= m.s.initLen
    requires actual == DATA || (kind.Blocking? && actual == BUSY)
    modifies m
    ensures m.GoesOn(t)
    ensures r.Went? ==> m.At(t, OuterStepFence(kind, actual)) && |m.schedule| <= |old(m.schedule)|
    ensures r.Went? ==>
      if actual == DATA then m.s.data == old(m.s.data) + values && RanStatement(m.run, t, |old(m.run)|)
      else m.NotInStatement(t)
    ensures actual == DATA ==>
      if r.Preempted? then |old(m.schedule)| < |values| else |m.schedule| == |old(m.schedule)| - |values|
    ensures r.Preempted? ==> m.schedule == [] && (actual != DATA ==> m.At(t, SpinRead))
  {
    hide IsMRun, MApply, MEnabled, MInv, Memory.Valid, AsFunction, RanStatement;
    var j := 0;
    while j < 1
      invariant 0 <= j <= 1 && m.At(t, if j == 0 then InnerTest(kind, actual, 0) else OuterStepFence(kind, actual))
      invariant m.GoesOn(t) && (j == 0 ==> m.s.data == old(m.s.data) && m.run == old(m.run))
      invariant j == 1 ==>
        actual == DATA && m.s.data == old(m.s.data) + values && RanStatement(m.run, t, |old(m.run)|)
      invariant |values| <= m.s.initLen && |m.schedule| == |old(m.schedule)| - (if j == 0 then 0 else |values|)
      decreases 1 - j
    {
      Branch(m, t, kind, actual);
      if actual != DATA {
        var _ :- WaitForDone(m, t);
        break;
      }
      var _ :- ExecuteStatement(m, t, kind, values, exit, |old(m.run)|);
      if exit.Break? {
        break;
      }
      j := j + 1;  // also after `continue`
    }
    return Went(());
  }

  /** The outer increment clause, a fence and a compare-and-swap. */
  method IncrementClause(m: Memory, t: nat, kind: Kind, actual: int) returns (r: Progress<()>)
    requires m.At(t, OuterStepFence(kind, actual))
    modifies m
    ensures m.GoesOn(t) && m.NotInStatement(t)
    ensures r.Went? ==> m.At(t, OuterTest(kind, DONE))
    ensures r.Went? && actual == DATA ==> |m.s.word| == 3 && m.s.data == old(m.s.data)
    ensures r.Preempted? ==> m.schedule == old(m.schedule) == [] && m.At(t, OuterStepCas(kind, actual))
  {
    hide IsMRun, MApply, MEnabled, MInv, Memory.Valid;
    m.Local(t, OuterStepCas(kind, actual));
    var _ :- m.PublishCas(t, kind, actual);
    return Went(());
  }

  /** One turn of the outer loop, which is all it makes. */
  method OuterTurn(m: Memory, t: nat, kind: Kind, actual: int, values: seq<int>, exit: Exit) returns (r: Progress<()>)
    requires m.At(t, OuterTest(kind, actual)) && Continues(kind, actual) && actual in {DATA, BUSY, DONE}
    requires |values| <= m.s.initLen
    modifies m
    ensures m.GoesOn(t)
    ensures r.Went? ==> m.At(t, OuterTest(kind, DONE))
    ensures r.Went? ==>
      if actual == DATA then
        m.s.data == old(m.s.data) + values && |m.s.word| == 3 && RanStatement(m.run, t, |old(m.run)|)
      else m.NotInStatement(t)
    ensures r.Preempted? ==> m.schedule == []
    ensures r.Preempted? && |old(m.schedule)| >= |values| + 1 ==>
      kind.Blocking? && (m.At(t, SpinRead) || m.At(t, OuterStepCas(Blocking, BUSY)))
  {
    hide IsMRun, MApply, MEnabled, MInv, Memory.Valid, AsFunction, RanStatement;
    m.Local(t, InnerTest(kind, actual, 0));
    ghost var before := m.run;
    var _ :- StatementLoop(m, t, kind, actual, values, exit);
    ghost var after := m.run;
    var _ :- IncrementClause(m, t, kind, actual);
    if actual == DATA {
      StillRan(after, m.run, t, |before|);
      RanSince(m.run, t, |before|, |old(m.run)|);
    }
    return Went(());
  }

  lemma RanSince(run: seq<MState>, t: nat, past: nat, earlier: nat)
    requires RanStatement(run, t, past) && earlier <= past
    ensures RanStatement(run, t, earlier)
  {
  }

  /** mulle_thread_once_do if `kind` is Blocking, else mulle_thread_once_do_noblock. Behind the former
      everything init wrote is in view; the result says whether the statement was executed here, which is the
      case exactly if the run shows it. With a slot for every access of a winner only a waiter is ever given
      up, and the latter never. */
  method OnceDo(m: Memory, t: nat, kind: Kind, values: seq<int>, exit: Exit) returns (r: Progress<bool>)
    requires m.At(t, Fun(Idle)) && m.s.thr[t].calls > 0 && |values| <= m.s.initLen
    modifies m
    ensures m.Valid() && old(m.run) <= m.run && old(m.acts) <= m.acts && |m.s.thr| == |old(m.s.thr)|
    ensures r.Went? ==> m.At(t, Fun(Idle)) && m.s.thr[t].calls == old(m.s.thr[t].calls) - 1
    ensures r.Went? ==> (r.value <==> RanStatement(m.run, t, |old(m.run)|))
    ensures r == Went(true) ==> |old(m.s.word)| == 1 && m.s.data == old(m.s.data) + values
    ensures r == Went(false) ==> |m.s.word| >= 2
    ensures r.Went? && (kind.Blocking? || r.value) ==> |m.s.word| == 3
    ensures r.Went? && kind.Blocking? ==> m.s.thr[t].dview == |m.s.data| - 1
    ensures r.Preempted? ==> m.schedule == []
    ensures r.Preempted? && |old(m.schedule)| >= |values| + 2 ==>
      kind.Blocking? && (m.At(t, SpinRead) || m.At(t, OuterStepCas(Blocking, BUSY)))
  {
    hide MApply, MEnabled, MInv, IsMRun, Memory.Valid, RanStatement;
    m.Begin(t, kind);
    var actual :- m.FirstCas(t, kind);
    var won := false;
    while Continues(kind, actual)
      invariant m.At(t, OuterTest(kind, actual)) && old(m.run) <= m.run && old(m.acts) <= m.acts
      invariant |m.s.thr| == |old(m.s.thr)| && m.s.thr[t].calls == old(m.s.thr[t].calls) - 1
      invariant actual in {DATA, BUSY, DONE} && (actual != DATA ==> |m.s.word| >= 2)
      invariant Continues(kind, actual) ==> |values| <= m.s.initLen && |m.schedule| == |old(m.schedule)| - 1
      invariant actual == DATA ==> |old(m.s.word)| == 1 && m.s.data == old(m.s.data)
      invariant if won then |m.s.word| == 3 && actual == DONE && |old(m.s.word)| == 1
                             && m.s.data == old(m.s.data) + values && RanStatement(m.run, t, |old(m.run)|)
                else forall k :: |old(m.run)| <= k < |m.run| ==> !InStatement(m.run[k], t)
      decreases Continues(kind, actual)
    {
      ghost var before := m.run;
      var _ :- OuterTurn(m, t, kind, actual, values, exit);
      if actual == DATA { RanSince(m.run, t, |before|, |old(m.run)|); }
      won, actual := actual == DATA, DONE;
    }
    ghost var after := m.run;
    m.End(t, kind, actual);
    if won { StillRan(after, m.run, t, |old(m.run)|); } else { NeverRan(m.run, t, |old(m.run)|); }
    return Went(won);
  }
}
