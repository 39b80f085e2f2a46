/** The block macros mulle_thread_once_do and mulle_thread_once_do_noblock, as the nested for-loops they
    expand to, used together with the functions on the same flag. The loops refine the functions: a
    thread inside a macro is at every moment at one point of the corresponding function. */
module OnceMacros {
  import opened Sums
  import opened Once

  datatype Exit = Normal | Continue | Break

  /** Where a thread is: in one of the functions, or in the two nested loops of a macro.
      `actual` and `j` are the macros' loop variables. */
  datatype Control =
    | Fun(pc: PC)
    | OuterInit(kind: Kind)
    | OuterTest(kind: Kind, actual: int)
    | InnerTest(kind: Kind, actual: int, j: nat)
    | IfWaiting(actual: int)                    // `if( actual != DATA)` of the blocking macro
    | SpinRead | SpinFence
    | Block(kind: Kind, left: nat)              // the user's statement
    | InnerStep(kind: Kind, actual: int, j: nat)
    | OuterStepFence(kind: Kind, actual: int)
    | OuterStepCas(kind: Kind, actual: int)

  datatype MThread = MThread(ctl: Control, view: nat, dview: nat, calls: nat)

  datatype MState = MState(word: seq<Msg>, data: seq<int>, thr: seq<MThread>, initLen: nat)

  datatype MChoice =
    | Call(kind: Kind, asMacro: bool) | Go(i: nat) | Write(v: int) | Leave(exit: Exit)

  datatype MAct = MAct(t: nat, c: MChoice)

  /** The outer loop's condition: blocking `actual != DONE`, non-blocking `actual == DATA`. */
  predicate Continues(kind: Kind, actual: int) {
    if kind.Blocking? then actual != DONE else actual == DATA
  }

  /** The point of the function a control point of the macro stands for. A waiter that has left its
      spin loop has returned; what it still executes is the loop's bookkeeping. */
  function AsFunction(ctl: Control, initLen: nat): PC {
    match ctl
    case Fun(pc) => pc
    case OuterInit(kind) => Cas(kind)
    case OuterTest(kind, actual) => AfterCas(kind, actual, initLen)
    case InnerTest(kind, actual, j) =>
      if j == 0 then AfterCas(kind, actual, initLen)
      else if actual == DATA then Barrier(kind) else Returned(kind)
    case IfWaiting(actual) => AfterCas(Blocking, actual, initLen)
    case SpinRead => Spin
    case SpinFence => SpinBarrier
    case Block(kind, left) => Body(kind, left)
    case InnerStep(kind, actual, j) => Barrier(kind)
    case OuterStepFence(kind, actual) => if actual == DATA then Barrier(kind) else Returned(kind)
    case OuterStepCas(kind, actual) => if actual == DATA then Publish(kind) else Returned(kind)
  }

  function ThreadOf(th: MThread, initLen: nat): Thread {
    Thread(AsFunction(th.ctl, initLen), th.view, th.dview, th.calls)
  }

  function Abs(s: MState): State {
    State(s.word, s.data, seq(|s.thr|, i requires 0 <= i < |s.thr| => ThreadOf(s.thr[i], s.initLen)), s.initLen)
  }

  /** The choice of the function machine behind a choice of the macro machine. */
  function ChoiceOf(c: MChoice): Choice {
    match c
    case Call(kind, _) => Choice.Call(kind)
    case Go(i) => Choice.Go(i)
    case Write(v) => Choice.Write(v)
    case Leave(_) => Choice.Leave
  }

  predicate MEnabled(s: MState, a: MAct) {
    && a.t < |s.thr|
    && var th := s.thr[a.t];
    && match th.ctl
       case Fun(pc) =>
         && Enabled(Abs(s), Act(a.t, ChoiceOf(a.c)))
         && (pc.Idle? || !a.c.Call?)
       case OuterInit(_) => a.c.Go? && MayCas(Abs(s), a.t, DATA, a.c.i)
       case SpinRead => a.c.Go? && MayRead(Abs(s), a.t, a.c.i)
       case Block(_, left) => a.c.Leave? || (a.c.Write? && left > 0)
       case OuterStepCas(_, _) => a.c.Go? && MayCas(Abs(s), a.t, BUSY, a.c.i)
       case _ => a.c.Go?
  }

  function SetControl(s: MState, t: nat, ctl: Control): MState
    requires t < |s.thr|
  {
    s.(thr := s.thr[t := s.thr[t].(ctl := ctl)])
  }

  /** A step of the function machine by thread t, which then stands at `ctl`. */
  function Shared(s: MState, s': State, t: nat, ctl: Control): MState
    requires t < |s.thr| && t < |s'.thr|
  {
    var th := s'.thr[t];
    MState(s'.word, s'.data, s.thr[t := MThread(ctl, th.view, th.dview, th.calls)], s.initLen)
  }

  function MApply(s: MState, a: MAct): MState
    requires MEnabled(s, a)
  {
    var t, th := a.t, s.thr[a.t];
    match th.ctl
    case Fun(pc) =>
      var s' := Apply(Abs(s), Act(t, ChoiceOf(a.c)));
      Shared(s, s', t, if a.c.Call? && a.c.asMacro then OuterInit(a.c.kind) else Fun(s'.thr[t].pc))
    case OuterInit(kind) =>
      var actual := s.word[a.c.i].value;
      Shared(s, DoCas(Abs(s), t, BUSY, DATA, a.c.i, Idle), t, OuterTest(kind, actual))
    case OuterTest(kind, actual) =>
      SetControl(s, t, if Continues(kind, actual) then InnerTest(kind, actual, 0) else Fun(Idle))
    case InnerTest(kind, actual, j) =>
      SetControl(s, t, if j >= 1 then OuterStepFence(kind, actual)
                       else if kind.Blocking? then IfWaiting(actual) else Block(kind, s.initLen))
    case IfWaiting(actual) => SetControl(s, t, if actual != DATA then SpinRead else Block(Blocking, s.initLen))
    case SpinRead =>
      Shared(s, SetThread(Abs(s), t, Acquire(Abs(s), Abs(s).thr[t], a.c.i)), t,
             if s.word[a.c.i].value == DONE then SpinFence else SpinRead)
    case SpinFence => SetControl(s, t, OuterStepFence(Blocking, BUSY))  // `break`
    case Block(kind, left) =>
      if a.c.Write? then
        var wrote := th.(ctl := Block(kind, left - 1), dview := |s.data|);
        s.(data := s.data + [a.c.v], thr := s.thr[t := wrote])
      else SetControl(s, t, if a.c.exit.Break? then OuterStepFence(kind, DATA) else InnerStep(kind, DATA, 0))
    case InnerStep(kind, actual, j) => SetControl(s, t, InnerTest(kind, actual, j + 1))
    case OuterStepFence(kind, actual) => SetControl(s, t, OuterStepCas(kind, actual))
    case OuterStepCas(kind, actual) =>
      Shared(s, DoCas(Abs(s), t, DONE, BUSY, a.c.i, Idle), t, OuterTest(kind, DONE))
  }

  ghost predicate MInit(s: MState) {
    Init(Abs(s)) && forall t :: 0 <= t < |s.thr| ==> s.thr[t].ctl == Fun(Idle)
  }

  ghost predicate IsMRun(run: seq<MState>, acts: seq<MAct>) {
    && |run| == |acts| + 1
    && MInit(run[0])
    && forall k :: 0 <= k < |acts| ==> MEnabled(run[k], acts[k]) && run[k + 1] == MApply(run[k], acts[k])
  }

  /** What the loop variables can be at each control point. */
  predicate GoodControl(ctl: Control) {
    match ctl
    case InnerTest(kind, actual, j) => Continues(kind, actual) && (j > 0 ==> actual == DATA)
    case IfWaiting(actual) => actual != DONE
    case InnerStep(kind, actual, j) => actual == DATA
    case OuterStepFence(kind, actual) => actual == DATA || kind.Blocking?
    case OuterStepCas(kind, actual) => actual == DATA || kind.Blocking?
    case _ => true
  }

  ghost predicate MInv(s: MState) {
    && Inv(Abs(s))
    && forall t :: 0 <= t < |s.thr| ==> GoodControl(s.thr[t].ctl)
  }

  /** The step of the function that a step of the macro performs, if it performs one: bookkeeping of the
      loops performs none, and neither does the publishing compare-and-swap of a waiter. */
  function Performs(s: MState, a: MAct): (r: seq<Act>)
    requires MEnabled(s, a)
    ensures |r| <= 1
  {
    var t := a.t;
    match s.thr[t].ctl
    case Fun(_) => [Act(t, ChoiceOf(a.c))]
    case OuterInit(_) => [Act(t, ChoiceOf(a.c))]
    case OuterTest(kind, actual) => if Continues(kind, actual) then [] else [Act(t, Choice.Leave)]
    case SpinRead => [Act(t, ChoiceOf(a.c))]
    case SpinFence => [Act(t, ChoiceOf(a.c))]
    case Block(_, _) => [Act(t, ChoiceOf(a.c))]
    case OuterStepFence(_, actual) => if actual == DATA then [Act(t, ChoiceOf(a.c))] else []
    case OuterStepCas(_, actual) => if actual == DATA then [Act(t, ChoiceOf(a.c))] else []
    case _ => []
  }

  /** Runs of the function machine from x: performing the steps in `todo` leads to y. */
  predicate Leads(x: State, todo: seq<Act>, y: State) {
    if |todo| == 0 then x == y
    else |todo| == 1 && Enabled(x, todo[0]) && y == Apply(x, todo[0])
  }

  lemma FunctionStepRefines(s: MState, a: MAct)
    requires MInv(s) && MEnabled(s, a) && s.thr[a.t].ctl.Fun?
    ensures Leads(Abs(s), Performs(s, a), Abs(MApply(s, a)))
  {
    var t, x, s' := a.t, Abs(s), MApply(s, a);
    SharedEffect(x, Performs(s, a)[0]);
    assert Abs(s').thr == x.thr[t := ThreadOf(s'.thr[t], s.initLen)];
    hide MInv, Inv;
  }

  lemma CasStepRefines(s: MState, a: MAct)
    requires MInv(s) && MEnabled(s, a) && (s.thr[a.t].ctl.OuterInit? || s.thr[a.t].ctl.OuterStepCas?)
    ensures Leads(Abs(s), Performs(s, a), Abs(MApply(s, a)))
  {
    var t, x, s' := a.t, Abs(s), MApply(s, a);
    assert GoodControl(s.thr[t].ctl) && ThreadInv(x, x.thr[t]);
    hide MInv, Inv;
    assert Abs(s').thr == x.thr[t := ThreadOf(s'.thr[t], s.initLen)];
    if |Performs(s, a)| == 0 {
      assert x.thr[t := x.thr[t]] == x.thr;
    }
  }

  lemma LoopStepRefines(s: MState, a: MAct)
    requires MInv(s) && MEnabled(s, a)
    requires var ctl := s.thr[a.t].ctl; !ctl.Fun? && !ctl.OuterInit? && !ctl.OuterStepCas?
    ensures Leads(Abs(s), Performs(s, a), Abs(MApply(s, a)))
  {
    var t, x, s' := a.t, Abs(s), MApply(s, a);
    assert GoodControl(s.thr[t].ctl) && ThreadInv(x, x.thr[t]);
    hide MInv, Inv, DoCas, MayCas;
    assert Abs(s').thr == x.thr[t := ThreadOf(s'.thr[t], s.initLen)];
    if |Performs(s, a)| == 0 {
      assert x.thr[t := x.thr[t]] == x.thr;
    }
  }

  lemma StepRefines(s: MState, a: MAct)
    requires MInv(s) && MEnabled(s, a)
    ensures Leads(Abs(s), Performs(s, a), Abs(MApply(s, a)))
  {
    hide MInv, Leads, Performs, MApply, Abs;
    var ctl := s.thr[a.t].ctl;
    if ctl.Fun? {
      FunctionStepRefines(s, a);
    } else if ctl.OuterInit? || ctl.OuterStepCas? {
      CasStepRefines(s, a);
    } else {
      LoopStepRefines(s, a);
    }
  }

  lemma StepKeepsMInv(s: MState, a: MAct)
    requires MInv(s) && MEnabled(s, a)
    ensures MInv(MApply(s, a))
    ensures |MApply(s, a).thr| == |s.thr| && forall u :: 0 <= u < |s.thr| && u != a.t ==>
      MApply(s, a).thr[u] == s.thr[u]
  {
    StepRefines(s, a);
    var todo := Performs(s, a);
    assert GoodControl(s.thr[a.t].ctl);
    if |todo| == 1 { StepKeepsInv(Abs(s), todo[0]); }
    hide Inv, Abs;
  }

  /** After k steps the macro machine stands where the function machine stands after at[k]. */
  ghost predicate SameState(run: seq<MState>, frun: seq<State>, at: seq<nat>, k: nat) {
    k < |run| && k < |at| && at[k] < |frun| && frun[at[k]] == Abs(run[k])
  }

  /** Step k performs just the steps that lead from there on. */
  ghost predicate SameSteps(run: seq<MState>, acts: seq<MAct>, facts: seq<Act>, at: seq<nat>, k: nat) {
    && k < |acts| && k < |run| && k + 1 < |at| && MEnabled(run[k], acts[k])
    && at[k + 1] == at[k] + |Performs(run[k], acts[k])| <= |facts|
    && facts[at[k]..at[k + 1]] == Performs(run[k], acts[k])
  }

  /** A run of the macro machine follows a run of the function machine. */
  ghost predicate Follows(run: seq<MState>, acts: seq<MAct>, frun: seq<State>, facts: seq<Act>, at: seq<nat>) {
    && |run| == |acts| + 1 == |at| && |frun| == |facts| + 1 && at[|acts|] == |facts|
    && (forall k :: 0 <= k < |run| ==> SameState(run, frun, at, k))
    && (forall k :: 0 <= k < |acts| ==> SameSteps(run, acts, facts, at, k))
  }

  lemma SameStateFurther(run: seq<MState>, frun: seq<State>, at: seq<nat>, n: nat, frun': seq<State>, at': seq<nat>,
      k: nat)
    requires k <= n < |run| && SameState(run[..n + 1], frun, at, k) && frun <= frun' && at <= at'
    ensures SameState(run, frun', at', k)
  {
    hide Abs;
    assert run[..n + 1][k] == run[k] && at'[k] == at[k] && frun'[at[k]] == frun[at[k]];
  }

  lemma SameStepsFurther(run: seq<MState>, acts: seq<MAct>, facts: seq<Act>, at: seq<nat>, n: nat,
                         facts': seq<Act>, at': seq<nat>, k: nat)
    requires k < n < |run| && n <= |acts| && SameSteps(run[..n + 1], acts[..n], facts, at, k) && facts <= facts'
        && at <= at'
    ensures SameSteps(run, acts, facts', at', k)
  {
    hide Abs, MEnabled, Performs;
    assert run[..n + 1][k] == run[k] && acts[..n][k] == acts[k] && at'[k] == at[k] && at'[k + 1] == at[k + 1];
    assert facts'[at[k]..at[k + 1]] == facts[at[k]..at[k + 1]];
  }

  /** One step of the macro machine takes the function machine at most one step further. */
  lemma LeadsFurther(frun: seq<State>, facts: seq<Act>, todo: seq<Act>, y: State)
    requires IsRun(frun, facts) && Leads(frun[|facts|], todo, y)
    ensures var frun' := if |todo| == 0 then frun else frun + [y];
      && IsRun(frun', facts + todo) && frun'[|facts + todo|] == y
  {
    hide Enabled, Apply, Init;
    if |todo| == 0 {
      assert facts + todo == facts;
    } else {
      ExtendedIsRun(frun, facts, todo[0]);
      assert todo == [todo[0]];
    }
  }

  lemma FollowsExtended(run: seq<MState>, acts: seq<MAct>, frun: seq<State>, facts: seq<Act>, at: seq<nat>,
                        frun': seq<State>, facts': seq<Act>, at': seq<nat>)
    requires |acts| > 0 && |run| == |acts| + 1 && |frun'| == |facts'| + 1
    requires Follows(run[..|acts|], acts[..|acts| - 1], frun, facts, at)
    requires frun <= frun' && facts <= facts' && at' == at + [|facts'|]
    requires SameState(run, frun', at', |acts|) && SameSteps(run, acts, facts', at', |acts| - 1)
    ensures Follows(run, acts, frun', facts', at')
  {
    hide SameState, SameSteps, Abs;
    var n := |acts| - 1;
    forall k | 0 <= k <= n + 1 ensures SameState(run, frun', at', k) {
      if k <= n {
        assert SameState(run[..n + 1], frun, at, k);
        SameStateFurther(run, frun, at, n, frun', at', k);
      }
    }
    forall k | 0 <= k <= n ensures SameSteps(run, acts, facts', at', k) {
      if k < n {
        assert SameSteps(run[..n + 1], acts[..n], facts, at, k);
        SameStepsFurther(run, acts, facts, at, n, facts', at', k);
      }
    }
  }

  lemma FollowsFurther(run: seq<MState>, acts: seq<MAct>, frun: seq<State>, facts: seq<Act>, at: seq<nat>)
    returns (frun': seq<State>, facts': seq<Act>, at': seq<nat>)
    requires |acts| > 0 && |run| == |acts| + 1
    requires var n := |acts| - 1;
      MInv(run[n]) && MEnabled(run[n], acts[n]) && run[n + 1] == MApply(run[n], acts[n])
    requires Follows(run[..|acts|], acts[..|acts| - 1], frun, facts, at) && IsRun(frun, facts)
    ensures IsRun(frun', facts') && Follows(run, acts, frun', facts', at')
  {
    hide MInv, MApply, Abs, IsRun, Leads, Performs, MEnabled;
    var n := |acts| - 1;
    assert SameState(run[..n + 1], frun, at, n) && run[..n + 1][n] == run[n] && frun[|facts|] == Abs(run[n]);
    StepRefines(run[n], acts[n]);
    var todo := Performs(run[n], acts[n]);
    LeadsFurther(frun, facts, todo, Abs(run[n + 1]));
    frun', facts' := if |todo| == 0 then frun else frun + [Abs(run[n + 1])], facts + todo;
    at' := at + [|facts'|];
    assert facts'[at'[n]..at'[n + 1]] == todo;
    FollowsExtended(run, acts, frun, facts, at, frun', facts', at');
  }

  lemma PrefixIsMRun(run: seq<MState>, acts: seq<MAct>, n: nat)
    requires IsMRun(run, acts) && n <= |acts|
    ensures IsMRun(run[..n + 1], acts[..n])
  {
    hide MInit, MEnabled, MApply;
  }

  /** Every run of the macros follows a run of the functions, state by state and step by step. */
  lemma {:induction false} RefinesFunctions(run: seq<MState>, acts: seq<MAct>)
    returns (frun: seq<State>, facts: seq<Act>, at: seq<nat>)
    requires IsMRun(run, acts)
    ensures IsRun(frun, facts) && Follows(run, acts, frun, facts, at)
    ensures MInv(run[|acts|])
  {
    if |acts| == 0 {
      frun, facts, at := [Abs(run[0])], [], [0];
      RunKeepsInv(frun, facts);
      assert Inv(frun[0]);
    } else {
      var n := |acts| - 1;
      PrefixIsMRun(run, acts, n);
      assert run[..n + 1][n] == run[n];
      hide IsRun, MInv, MInit, Follows, Performs, MApply, MEnabled, Abs;
      frun, facts, at := RefinesFunctions(run[..n + 1], acts[..n]);
      LastStep(run, acts);
      StepKeepsMInv(run[n], acts[n]);
      frun, facts, at := FollowsFurther(run, acts, frun, facts, at);
    }
  }

  lemma LastStep(run: seq<MState>, acts: seq<MAct>)
    requires IsMRun(run, acts) && |acts| > 0
    ensures MEnabled(run[|acts| - 1], acts[|acts| - 1])
    ensures run[|acts|] == MApply(run[|acts| - 1], acts[|acts| - 1])
  {
  }

  lemma {:induction false} FollowsInOrder(run: seq<MState>, acts: seq<MAct>, frun: seq<State>, facts: seq<Act>,
      at: seq<nat>,
                                          j: nat, k: nat)
    requires Follows(run, acts, frun, facts, at) && j <= k < |run|
    ensures at[j] <= at[k]
  {
    hide Performs, MEnabled, Abs;
    if j == k {
    } else {
      assert SameSteps(run, acts, facts, at, k - 1);
      FollowsInOrder(run, acts, frun, facts, at, j, k - 1);
    }
  }

  lemma AllMInv(run: seq<MState>, acts: seq<MAct>, k: nat)
    requires IsMRun(run, acts) && k < |run|
    ensures MInv(run[k])
  {
    PrefixIsMRun(run, acts, k);
    var frun, facts, at := RefinesFunctions(run[..k + 1], acts[..k]);
  }

  // ---- what was proved of the functions, for macros and functions mixed ----

  /** Running init: a macro's statement, or the init function of one of the functions. */
  predicate RunsInit(ctl: Control) {
    ctl.Block? || (ctl.Fun? && ctl.pc.Body?)
  }

  /** Running init, or behind it on the way to publishing. */
  predicate Owes(ctl: Control) {
    || ctl.Block? || ctl.InnerStep? || (ctl.InnerTest? && ctl.j > 0)
    || ((ctl.OuterStepFence? || ctl.OuterStepCas?) && ctl.actual == DATA)
    || (ctl.Fun? && Winner(ctl.pc))
  }

  lemma OwingFacts(ctl: Control)
    ensures RunsInit(ctl) ==> Owes(ctl)
    ensures ctl == Fun(Idle) ==> !Owes(ctl)
  {
  }

  lemma OwesIsWinner(s: MState, t: nat)
    requires MInv(s) && t < |s.thr| && Owes(s.thr[t].ctl)
    ensures Winner(Abs(s).thr[t].pc) && |s.word| == 2
  {
    assert GoodControl(s.thr[t].ctl) && ThreadInv(Abs(s), Abs(s).thr[t]);
  }

  lemma StepOwes(s: MState, a: MAct, t: nat)
    requires MInv(s) && MEnabled(s, a) && t < |s.thr|
    requires Owes(s.thr[t].ctl) || |s.word| == 3
    ensures t < |MApply(s, a).thr|
    ensures Owes(MApply(s, a).thr[t].ctl) || |MApply(s, a).word| == 3
  {
    assert GoodControl(s.thr[t].ctl) && ThreadInv(Abs(s), Abs(s).thr[t]);
    if |s.word| == 3 {
      StepRefines(s, a);
      var todo := Performs(s, a);
      if |todo| == 1 { StepGrows(Abs(s), todo[0]); }
    }
  }

  lemma ThirdIsDone(s: MState)
    requires MInv(s) && |s.word| == 3
    ensures s.word[2].value == DONE
  {
  }

  /** Left by running to its end, by `continue` or by `break`, the statement is followed by DONE, and so is
      the init of a function: when the thread is through, the word holds its one and only DONE message. */
  lemma {:induction false} InitPublishes(run: seq<MState>, acts: seq<MAct>, j: nat, k: nat, t: nat)
    requires IsMRun(run, acts) && j <= k < |run|
    requires t < |run[j].thr| && RunsInit(run[j].thr[t].ctl)
    ensures t < |run[k].thr|
    ensures Owes(run[k].thr[t].ctl) || (|run[k].word| == 3 && run[k].word[2].value == DONE)
    ensures run[k].thr[t].ctl == Fun(Idle) ==> |run[k].word| == 3
    decreases k - j
  {
    hide MInit, MInv, MApply, MEnabled, Owes, RunsInit;
    AllMInv(run, acts, k);
    if j == k {
    } else {
      InitPublishes(run, acts, j, k - 1, t);
      AllMInv(run, acts, k - 1);
      StepOwes(run[k - 1], acts[k - 1], t);
    }
    OwingFacts(run[k].thr[t].ctl);
    if |run[k].word| == 3 { ThirdIsDone(run[k]); }
  }

  /** Step k is where some thread begins to run init, as a statement or as a function. */
  ghost predicate BeginsInit(run: seq<MState>, acts: seq<MAct>, k: nat)
    requires IsMRun(run, acts) && k < |acts|
  {
    !RunsInit(run[k].thr[acts[k].t].ctl) && RunsInit(run[k + 1].thr[acts[k].t].ctl)
  }

  /** Who begins to run init has won and does not owe yet, or wins with this step. */
  lemma BeginningFacts(s: MState, a: MAct)
    requires MInv(s) && MEnabled(s, a) && !RunsInit(s.thr[a.t].ctl)
    ensures |MApply(s, a).thr| == |s.thr|
    ensures RunsInit(MApply(s, a).thr[a.t].ctl) ==>
      !Owes(s.thr[a.t].ctl) && (|s.word| == 1 || Winner(Abs(s).thr[a.t].pc))
  {
    assert GoodControl(s.thr[a.t].ctl) && ThreadInv(Abs(s), Abs(s).thr[a.t]);
  }

  lemma NoSecondOwner(s: MState, t: nat, u: nat)
    requires MInv(s) && t < |s.thr| && u < |s.thr| && Owes(s.thr[t].ctl) && Winner(Abs(s).thr[u].pc)
    ensures t == u && |s.word| == 2
  {
    OwesIsWinner(s, t);
  }

  lemma NoWinnerAfterDone(s: MState, u: nat)
    requires MInv(s) && u < |s.thr| && Winner(Abs(s).thr[u].pc)
    ensures |s.word| == 2
  {
    assert ThreadInv(Abs(s), Abs(s).thr[u]);
  }

  /** Init is run at most once in any run, whatever macros and functions compete for it. */
  lemma MInitRunsOnce(run: seq<MState>, acts: seq<MAct>, j: nat, k: nat)
    requires IsMRun(run, acts) && j < k < |acts| && BeginsInit(run, acts, j)
    ensures !BeginsInit(run, acts, k)
  {
    var s, t, u := run[k], acts[j].t, acts[k].t;
    AllMInv(run, acts, j);
    AllMInv(run, acts, k);
    hide MInit, MInv, MApply, MEnabled, Owes, RunsInit, Abs;
    BeginningFacts(run[j], acts[j]);
    InitPublishes(run, acts, j + 1, k, t);
    if BeginsInit(run, acts, k) {
      BeginningFacts(s, acts[k]);
      if Owes(s.thr[t].ctl) {
        OwesIsWinner(s, t);
        NoSecondOwner(s, t, u);
      } else {
        NoWinnerAfterDone(s, u);
      }
    }
  }

  /** Step k is the publishing compare-and-swap of a thread that ran init. */
  ghost predicate Publishes(run: seq<MState>, acts: seq<MAct>, k: nat)
    requires IsMRun(run, acts) && k < |acts|
  {
    var ctl := run[k].thr[acts[k].t].ctl;
    (ctl.OuterStepCas? && ctl.actual == DATA) || (ctl.Fun? && ctl.pc.Publish?)
  }

  /** In macro or function, between winning the first compare-and-swap and having done the second. */
  predicate MWinner(s: MState, t: nat)
    requires t < |s.thr|
  {
    Winner(AsFunction(s.thr[t].ctl, s.initLen))
  }

  /** The word goes DATA, BUSY, DONE, is BUSY exactly while a single thread, in macro or function, is
      between its two compare-and-swaps, and the second of those always succeeds. */
  lemma MWordProtocol(run: seq<MState>, acts: seq<MAct>, k: nat)
    requires IsMRun(run, acts) && k < |run|
    ensures var s := run[k];
      && 1 <= |s.word| <= 3
      && (forall i :: 0 <= i < |s.word| ==> s.word[i].value == [DATA, BUSY, DONE][i])
      && (s.word[|s.word| - 1].value == BUSY <==> exists t :: 0 <= t < |s.thr| && MWinner(s, t))
      && (forall t, u :: 0 <= t < |s.thr| && 0 <= u < |s.thr| && MWinner(s, t) && MWinner(s, u) ==> t == u)
    ensures k < |acts| && Publishes(run, acts, k) ==>
      |run[k + 1].word| == |run[k].word| + 1 && run[k + 1].word[|run[k].word|].value == DONE
  {
    var frun, facts, at := RefinesFunctions(run, acts);
    assert SameState(run, frun, at, k);
    WordProtocol(frun, facts, at[k]);
    forall t | 0 <= t < |run[k].thr|
      ensures Winner(Abs(run[k]).thr[t].pc) == MWinner(run[k], t)
    {
    }
    if k < |acts| && Publishes(run, acts, k) {
      assert SameSteps(run, acts, facts, at, k) && SameState(run, frun, at, k + 1);
      assert at[k + 1] == at[k] + 1;
      assert facts[at[k]] == facts[at[k]..at[k + 1]][0];
    }
  }

  lemma ThroughHasSeen(s: MState, t: nat)
    requires MInv(s) && t < |s.thr| && AsFunction(s.thr[t].ctl, s.initLen) == Returned(Blocking)
    ensures |s.word| == 3 && s.thr[t].dview == |s.data| - 1
  {
    assert ThreadInv(Abs(s), Abs(s).thr[t]);
  }

  /** A blocking call or macro that is through, down to a waiter in its bookkeeping, comes after init;
      and from then on every read of the data by its thread, however stale, finds what init left. */
  lemma MReturnSeesInit(run: seq<MState>, acts: seq<MAct>, j: nat, t: nat, k: nat, i: nat)
    requires IsMRun(run, acts) && j <= k < |run|
    requires t < |run[j].thr| && AsFunction(run[j].thr[t].ctl, run[j].initLen) == Returned(Blocking)
    requires run[j].thr[t].dview <= i < |run[k].data|
    ensures |run[j].word| == 3
    ensures forall u :: 0 <= u < |run[j].thr| ==> !RunsInit(run[j].thr[u].ctl)
    ensures |run[j].data| == |run[k].data| && run[k].data[i] == run[j].data[|run[j].data| - 1]
  {
    var frun, facts, at := RefinesFunctions(run, acts);
    FollowsInOrder(run, acts, frun, facts, at, j, k);
    assert SameState(run, frun, at, j) && SameState(run, frun, at, k);
    ReturnSeesInit(frun, facts, at[j], t, at[k], i);
    AllMInv(run, acts, j);
    ThroughHasSeen(run[j], t);
    forall u | 0 <= u < |run[j].thr| ensures !RunsInit(run[j].thr[u].ctl) {
      assert !Abs(run[j]).thr[u].pc.Body?;
    }
  }

  // ---- the macros' own promises ----

  /** A waiter also runs the loops' increment clause: its BUSY to DONE compare-and-swap fails and leaves
      the shared state and every thread's view as they were. */
  lemma WaiterChangesNothing(run: seq<MState>, acts: seq<MAct>, k: nat)
    requires IsMRun(run, acts) && k < |acts|
    requires run[k].thr[acts[k].t].ctl.OuterStepCas? && run[k].thr[acts[k].t].ctl.actual != DATA
    ensures run[k + 1] == SetControl(run[k], acts[k].t, OuterTest(Blocking, DONE))
  {
    AllMInv(run, acts, k);
    var s, t := run[k], acts[k].t;
    assert GoodControl(s.thr[t].ctl) && ThreadInv(Abs(s), Abs(s).thr[t]);
  }

  // ---- progress ----

  function ControlRank(ctl: Control, initLen: nat): nat {
    match ctl
    case Fun(pc) => PcRank(pc, initLen)
    case OuterInit(_) => initLen + 12
    case OuterTest(kind, actual) => if Continues(kind, actual) then initLen + 11 else 1
    case InnerTest(_, _, j) => if j == 0 then initLen + 10 else 4
    case IfWaiting(_) => initLen + 9
    case Block(_, left) => left + 7
    case SpinRead => 6
    case SpinFence => 5
    case InnerStep(_, _, _) => 5
    case OuterStepFence(_, _) => 3
    case OuterStepCas(_, _) => 2
  }

  function MThreadRank(initLen: nat, th: MThread): nat {
    th.calls * (initLen + 13) + ControlRank(th.ctl, initLen)
  }

  function MRank(s: MState): nat {
    Total(th => MThreadRank(s.initLen, th), s.thr)
  }

  predicate MFailedSpin(s: MState, a: MAct)
    requires MEnabled(s, a)
  {
    && (s.thr[a.t].ctl.SpinRead? || s.thr[a.t].ctl == Fun(Spin))
    && s.word[a.c.i].value != DONE
  }

  lemma FunctionRankDrops(s: MState, a: MAct)
    requires MInv(s) && MEnabled(s, a) && s.thr[a.t].ctl.Fun?
    ensures |MApply(s, a).thr| == |s.thr|
    ensures var before, after := MThreadRank(s.initLen, s.thr[a.t]), MThreadRank(s.initLen, MApply(s, a).thr[a.t]);
      if MFailedSpin(s, a) then after == before else after < before
  {
    var th, th' := s.thr[a.t], MApply(s, a).thr[a.t];
    assert ThreadInv(Abs(s), Abs(s).thr[a.t]);
    hide MInv, Inv;
    if th.ctl.pc.Idle? {
      OneCallLess(th.calls, s.initLen + 13);
    } else {
      assert th'.calls == th.calls;
    }
  }

  lemma LoopRankDrops(s: MState, a: MAct)
    requires MInv(s) && MEnabled(s, a) && !s.thr[a.t].ctl.Fun?
    ensures |MApply(s, a).thr| == |s.thr|
    ensures var before, after := MThreadRank(s.initLen, s.thr[a.t]), MThreadRank(s.initLen, MApply(s, a).thr[a.t]);
      if MFailedSpin(s, a) then after == before else after < before
  {
    assert GoodControl(s.thr[a.t].ctl);
    hide MInv, Inv, Apply, Enabled, PcRank;
    assert MApply(s, a).thr[a.t].calls == s.thr[a.t].calls;
  }

  lemma MThreadRankDrops(s: MState, a: MAct)
    requires MInv(s) && MEnabled(s, a)
    ensures |MApply(s, a).thr| == |s.thr|
    ensures var before, after := MThreadRank(s.initLen, s.thr[a.t]), MThreadRank(s.initLen, MApply(s, a).thr[a.t]);
      if MFailedSpin(s, a) then after == before else after < before
  {
    if s.thr[a.t].ctl.Fun? { FunctionRankDrops(s, a); } else { LoopRankDrops(s, a); }
  }

  lemma LengthIsFixed(s: MState, a: MAct)
    requires MInv(s) && MEnabled(s, a)
    ensures MApply(s, a).initLen == s.initLen
  {
  }

  /** Every step but a failed spin uses up rank, the loops' bookkeeping included. */
  lemma MStepRank(s: MState, a: MAct)
    requires MInv(s) && MEnabled(s, a)
    ensures if MFailedSpin(s, a) then MRank(MApply(s, a)) == MRank(s) else MRank(MApply(s, a)) < MRank(s)
  {
    StepKeepsMInv(s, a);
    MThreadRankDrops(s, a);
    LengthIsFixed(s, a);
    hide MInv, MApply, MEnabled, MThreadRank, Abs;
    var s', f := MApply(s, a), (th: MThread) => MThreadRank(s.initLen, th);
    assert s'.thr == s.thr[a.t := s'.thr[a.t]];
    TotalUpdate(f, s.thr, a.t, s'.thr[a.t]);
  }

  function MProductive(run: seq<MState>, acts: seq<MAct>, k: nat): nat
    requires |run| == |acts| + 1 && k <= |acts|
    requires forall i :: 0 <= i < |acts| ==> MEnabled(run[i], acts[i])
  {
    if k == 0 then 0
    else MProductive(run, acts, k - 1) + if MFailedSpin(run[k - 1], acts[k - 1]) then 0 else 1
  }

  /** However macros and functions are scheduled, all but the failed spins are bounded beforehand. */
  lemma {:induction false} MWorkIsBounded(run: seq<MState>, acts: seq<MAct>, k: nat)
    requires IsMRun(run, acts) && k <= |acts|
    ensures MProductive(run, acts, k) + MRank(run[k]) <= MRank(run[0])
  {
    if k == 0 {
    } else {
      MWorkIsBounded(run, acts, k - 1);
      AllMInv(run, acts, k - 1);
      hide MInv, MInit, MRank, MFailedSpin;
      MStepRank(run[k - 1], acts[k - 1]);
    }
  }
}
