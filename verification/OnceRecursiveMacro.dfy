/** mulle_thread_once_do_recursive refines mulle_thread_once_call_recursive: a waiter that has left the
    macro's spin loop still executes the increment clause, which writes NULL to `_thread_id` and tries
    the BUSY to DONE compare-and-swap. Erasing those redundant NULLs turns every macro run into a run of
    the function. */
module OnceRecursiveMacro {
  import opened ThreadIds
  import O = Once
  import opened OnceRecursive

  function ErasePC(pc: PC): PC {
    if pc.WaiterClear? || pc.WaiterBarrier? || pc.WaiterCas? then Returned(Complete) else pc
  }

  function EraseSite(site: Site): Site { site.(form := Function) }

  function EraseCall(call: Call): Call {
    if call.At? then At(EraseSite(call.site), ErasePC(call.pc)) else call
  }

  /** The NULLs beyond the owner's are the waiters'. */
  function EraseFlag(flag: Flag): Flag {
    flag.(tid := if |flag.tid| <= 3 then flag.tid else flag.tid[..3])
  }

  function EraseIndex(i: nat): nat { if i < 2 then i else 2 }

  function EraseAct(s: State, a: Act): Act
    requires Enabled(s, a)
  {
    match a.c
    case Enter(site) => Act(a.t, Enter(EraseSite(site)))
    case Go(i) => if s.thr[a.t].call.pc.ReadTid? then Act(a.t, Go(EraseIndex(i))) else a
    case _ => a
  }

  /** The function's thread y stands where the macro's thread th stands; of `_thread_id` it may have
      seen less, for it did not write the waiters' NULLs. */
  predicate ThreadCovers(th: Thread, y: Thread) {
    && |y.inits| == |th.inits| && |y.view| == |th.view|
    && (forall k :: 0 <= k < |th.inits| ==> y.inits[k] == EraseSite(th.inits[k]))
    && y.call == EraseCall(th.call)
    && (forall f :: 0 <= f < |th.view| ==>
          y.view[f].w == th.view[f].w && y.view[f].d == th.view[f].d && y.view[f].t <= EraseIndex(th.view[f].t))
  }

  /** x is a state of the function machine that the state s of the macro machine stands for. */
  ghost predicate Covers(s: State, x: State) {
    && x.ids == s.ids && x.rank == s.rank && |x.flags| == |s.flags| && |x.thr| == |s.thr|
    && (forall f :: 0 <= f < |s.flags| ==> x.flags[f] == EraseFlag(s.flags[f]))
    && (forall t :: 0 <= t < |s.thr| ==> ThreadCovers(s.thr[t], x.thr[t]))
  }

  predicate WaiterStep(s: State, a: Act)
    requires Enabled(s, a)
  {
    var call := s.thr[a.t].call;
    call.At? && (call.pc.WaiterClear? || call.pc.WaiterBarrier? || call.pc.WaiterCas?)
  }

  /** A waiter's bookkeeping leaves the newest value of every shared word and all data as they were, and
      stands for no step of the function at all. */
  lemma WaiterStepsAreInvisible(s: State, a: Act, x: State)
    requires Inv(s) && Enabled(s, a) && WaiterStep(s, a) && Covers(s, x)
    ensures var s' := Apply(s, a);
      && |s'.flags| == |s.flags|
      && (forall f :: 0 <= f < |s.flags| ==>
            && s'.flags[f].word == s.flags[f].word && s'.flags[f].data == s.flags[f].data
            && |s.flags[f].tid| > 0 && |s'.flags[f].tid| > 0
            && s'.flags[f].tid[|s'.flags[f].tid| - 1] == s.flags[f].tid[|s.flags[f].tid| - 1])
      && Covers(s', x)
  {
    var s', t, g := Apply(s, a), a.t, Target(s, a);
    StepEffect(s, a);
    WaiterStepKeepsFlag(s, a);
    WaiterStepKeepsThread(s, a);
    hide Inv, Apply, Enabled, EraseFlag;
    forall f | 0 <= f < |s.flags| ensures |s.flags[f].tid| > 0 { FlagHasName(s, f); }
    assert ThreadCovers(s'.thr[t], x.thr[t]);
  }

  lemma WaiterStepKeepsFlag(s: State, a: Act)
    requires Inv(s) && Enabled(s, a) && WaiterStep(s, a)
    ensures Target(s, a) < |Apply(s, a).flags|
    ensures var x, y := s.flags[Target(s, a)], Apply(s, a).flags[Target(s, a)];
      && EraseFlag(y) == EraseFlag(x) && y.word == x.word && y.data == x.data
      && |x.tid| > 0 && |y.tid| > 0 && y.tid[|y.tid| - 1] == x.tid[|x.tid| - 1]
  {
    InvFacts(s, a.t, Target(s, a));
    hide Inv;
  }

  /** The views of a waiter stay as they are but for `_thread_id`: it has acquired DONE already. */
  lemma WaiterStepKeepsThread(s: State, a: Act)
    requires Inv(s) && Enabled(s, a) && WaiterStep(s, a)
    ensures a.t < |Apply(s, a).thr|
    ensures var th, th' := s.thr[a.t], Apply(s, a).thr[a.t];
      && th'.inits == th.inits && EraseCall(th'.call) == EraseCall(th.call) && |th'.view| == |th.view|
      && (forall f :: 0 <= f < |th.view| ==>
            && th'.view[f].w == th.view[f].w && th'.view[f].d == th.view[f].d
            && EraseIndex(th'.view[f].t) >= EraseIndex(th.view[f].t))
  {
    InvFacts(s, a.t, Target(s, a));
    DataFacts(s, a.t, Target(s, a));
    hide Inv;
  }

  lemma FlagHasName(s: State, f: nat)
    requires Inv(s) && f < |s.flags|
    ensures FlagInv(s.flags[f], f)
  {
  }

  lemma SameRunning(th: Thread, y: Thread, f: nat)
    requires ThreadCovers(th, y)
    ensures Running(th, f) <==> Running(y, f)
  {
    if Running(th, f) {
      var k :| 0 <= k < |th.inits| && th.inits[k].flag == f;
      assert y.inits[k].flag == f;
    }
  }

  /** All other steps of the macro are steps of the function. */
  lemma EnabledBelow(s: State, a: Act, x: State)
    requires Inv(s) && Enabled(s, a) && !WaiterStep(s, a) && Covers(s, x)
    ensures Enabled(x, EraseAct(s, a)) && Target(x, EraseAct(s, a)) == Target(s, a)
  {
    var t, g := a.t, Target(s, a);
    InvFacts(s, t, g);
    hide Inv, Running, GoodStack;
    assert ThreadCovers(s.thr[t], x.thr[t]) && x.flags[g] == EraseFlag(s.flags[g]);
    SameRunning(s.thr[t], x.thr[t], g);
    assert Shaped(x, t);
  }

  /** x' is x after a step of t about flag g that matches the step from s to s'. */
  ghost predicate Below(s': State, x: State, x': State, t: nat, g: nat) {
    && t < |s'.thr| == |x.thr| == |x'.thr| && g < |s'.flags| == |x.flags| == |x'.flags|
    && x'.ids == x.ids && x'.rank == x.rank
    && x'.flags == x.flags[g := x'.flags[g]] && x'.thr == x.thr[t := x'.thr[t]]
    && x'.flags[g] == EraseFlag(s'.flags[g])
    && ThreadCovers(s'.thr[t], x'.thr[t])
  }

  ghost predicate Matching(s: State, a: Act, x: State) {
    && Enabled(s, a) && Enabled(x, EraseAct(s, a)) && Target(x, EraseAct(s, a)) == Target(s, a)
    && !WaiterStep(s, a) && x.ids == s.ids && |x.thr| == |s.thr| && |x.flags| == |s.flags|
    && ThreadCovers(s.thr[a.t], x.thr[a.t]) && x.flags[Target(s, a)] == EraseFlag(s.flags[Target(s, a)])
    && FlagInv(s.flags[Target(s, a)], Target(s, a))
        && Knows(s.flags[Target(s, a)], Id(s.ids, a.t), s.thr[a.t], Target(s, a))
  }

  lemma InitBelow(s: State, a: Act, x: State)
    requires Matching(s, a, x) && s.thr[a.t].call.None?
    ensures Below(Apply(s, a), x, Apply(x, EraseAct(s, a)), a.t, Target(s, a))
  {
    hide Running, FlagInv, Knows;
  }

  lemma CasFlagBelow(s: State, a: Act, x: State)
    requires Matching(s, a, x) && s.thr[a.t].call.At? && s.thr[a.t].call.pc in {Cas, Publish}
    ensures var f, s', x' := Target(s, a), Apply(s, a), Apply(x, EraseAct(s, a));
      f < |s'.flags| == |x'.flags| && x'.flags == x.flags[f := x'.flags[f]] && x'.flags[f] == EraseFlag(s'.flags[f])
  {
    hide Running, FlagInv, Knows;
    var f := Target(s, a);
    SeenAlike(Acquire(s, a.t, f, a.c.i), Acquire(x, a.t, f, a.c.i));
  }

  lemma CasThreadBelow(s: State, a: Act, x: State)
    requires Matching(s, a, x) && s.thr[a.t].call.At? && s.thr[a.t].call.pc in {Cas, Publish}
    ensures var s', x' := Apply(s, a), Apply(x, EraseAct(s, a));
      && x'.ids == x.ids && x'.rank == x.rank && |x'.thr| == |x.thr| == |s'.thr|
      && x'.thr == x.thr[a.t := x'.thr[a.t]] && ThreadCovers(s'.thr[a.t], x'.thr[a.t])
  {
    hide Running, FlagInv, Knows;
  }

  lemma CasBelow(s: State, a: Act, x: State)
    requires Matching(s, a, x) && s.thr[a.t].call.At? && s.thr[a.t].call.pc in {Cas, Publish}
    ensures Below(Apply(s, a), x, Apply(x, EraseAct(s, a)), a.t, Target(s, a))
  {
    hide Running, FlagInv, Knows, Apply, ThreadCovers, EraseFlag;
    CasFlagBelow(s, a, x);
    CasThreadBelow(s, a, x);
  }

  lemma SeenAlike(view: seq<View>, view': seq<View>)
    requires |view| == |view'| && forall g :: 0 <= g < |view| ==> view'[g].d == view[g].d
    ensures SeenData(view') == SeenData(view)
  {
  }

  lemma WriteBelow(s: State, a: Act, x: State)
    requires Matching(s, a, x) && s.thr[a.t].call.At? && s.thr[a.t].call.pc in {WriteTid, ClearTid}
    ensures Below(Apply(s, a), x, Apply(x, EraseAct(s, a)), a.t, Target(s, a))
  {
    var s', x', t, g := Apply(s, a), Apply(x, EraseAct(s, a)), a.t, Target(s, a);
    hide Running, FlagInv;
    assert |s.flags[g].tid| <= 2;
    hide Knows;
  }

  lemma SpinBelow(s: State, a: Act, x: State)
    requires Matching(s, a, x) && s.thr[a.t].call.At? && s.thr[a.t].call.pc.Spin?
    ensures Below(Apply(s, a), x, Apply(x, EraseAct(s, a)), a.t, Target(s, a))
  {
    hide Running, Knows, FlagInv;
  }

  lemma ReadTidBelow(s: State, a: Act, x: State)
    requires Matching(s, a, x) && s.thr[a.t].call.At? && s.thr[a.t].call.pc.ReadTid?
    ensures Below(Apply(s, a), x, Apply(x, EraseAct(s, a)), a.t, Target(s, a))
  {
    hide Running, Knows, Acquire, DoCas;
  }

  lemma QuietBelow(s: State, a: Act, x: State)
    requires Matching(s, a, x) && s.thr[a.t].call.At?
    requires s.thr[a.t].call.pc !in {Cas, Publish, WriteTid, ClearTid, Spin, ReadTid}
    ensures Below(Apply(s, a), x, Apply(x, EraseAct(s, a)), a.t, Target(s, a))
  {
    hide Running, Knows, FlagInv, Acquire, DoCas;
  }

  lemma CoveringMatches(s: State, a: Act, x: State)
    requires Inv(s) && Enabled(s, a) && Covers(s, x) && !WaiterStep(s, a)
    ensures Matching(s, a, x)
  {
    EnabledBelow(s, a, x);
    InvFacts(s, a.t, Target(s, a));
    hide Inv, Enabled, FlagInv, Knows, GoodStack, Running, ThreadCovers, EraseFlag;
  }

  lemma MatchingBelow(s: State, a: Act, x: State)
    requires Matching(s, a, x)
    ensures Below(Apply(s, a), x, Apply(x, EraseAct(s, a)), a.t, Target(s, a))
  {
    hide Below, Apply, Running, FlagInv, Knows, ThreadCovers, EraseFlag;
    var call := s.thr[a.t].call;
    if call.None? { InitBelow(s, a, x); }
    else if call.pc in {Cas, Publish} { CasBelow(s, a, x); }
    else if call.pc in {WriteTid, ClearTid} { WriteBelow(s, a, x); }
    else if call.pc.Spin? { SpinBelow(s, a, x); }
    else if call.pc.ReadTid? { ReadTidBelow(s, a, x); }
    else { QuietBelow(s, a, x); }
  }

  lemma BelowCovers(s: State, s': State, x: State, x': State, t: nat, g: nat)
    requires Covers(s, x) && Effect(s, s', t, g) && Below(s', x, x', t, g)
    ensures Covers(s', x')
  {
    hide ThreadCovers, EraseFlag, ViewGrows, InRange, Owns, Named;
  }

  /** The macro's step simulated by the function, or invisible to it. */
  lemma StepRefines(s: State, a: Act, x: State) returns (x': State)
    requires Inv(s) && Enabled(s, a) && Covers(s, x)
    ensures Covers(Apply(s, a), x')
    ensures if WaiterStep(s, a) then x' == x else Enabled(x, EraseAct(s, a)) && x' == Apply(x, EraseAct(s, a))
  {
    hide Inv, Apply, Covers, Effect, Below, WaiterStep;
    if WaiterStep(s, a) {
      WaiterStepsAreInvisible(s, a, x);
      x' := x;
    } else {
      CoveringMatches(s, a, x);
      x' := Apply(x, EraseAct(s, a));
      StepEffect(s, a);
      MatchingBelow(s, a, x);
      BelowCovers(s, Apply(s, a), x, x', a.t, Target(s, a));
    }
  }

  /** After k steps of the one run the function machine stands, after at[k] steps, where it should. */
  ghost predicate SameState(run: seq<State>, frun: seq<State>, at: seq<nat>, k: nat) {
    k < |run| && k < |at| && at[k] < |frun| && Covers(run[k], frun[at[k]])
  }

  /** Step k is a waiter's and has no counterpart, or has the one step there as its counterpart. */
  ghost predicate SameStep(run: seq<State>, acts: seq<Act>, facts: seq<Act>, at: seq<nat>, k: nat) {
    && k < |acts| && k < |run| && k + 1 < |at| && Enabled(run[k], acts[k])
    && if WaiterStep(run[k], acts[k]) then at[k + 1] == at[k]
       else at[k + 1] == at[k] + 1 && at[k] < |facts| && facts[at[k]] == EraseAct(run[k], acts[k])
  }

  /** A run of macros and functions follows a run of functions alone. */
  ghost predicate Follows(run: seq<State>, acts: seq<Act>, frun: seq<State>, facts: seq<Act>, at: seq<nat>) {
    && |run| == |acts| + 1 == |at| && |frun| == |facts| + 1 && at[0] == 0 && at[|acts|] == |facts|
    && (forall k :: 0 <= k < |run| ==> SameState(run, frun, at, k))
    && (forall k :: 0 <= k < |acts| ==> SameStep(run, acts, facts, at, k))
  }

  lemma SameStateFurther(run: seq<State>, frun: seq<State>, at: seq<nat>, n: nat, frun': seq<State>, at': seq<nat>,
      k: nat)
    requires k <= n < |run| && SameState(run[..n + 1], frun, at, k) && frun <= frun' && at <= at'
    ensures SameState(run, frun', at', k)
  {
    hide Covers;
    assert run[..n + 1][k] == run[k] && at'[k] == at[k] && frun'[at[k]] == frun[at[k]];
  }

  lemma SameStepFurther(run: seq<State>, acts: seq<Act>, facts: seq<Act>, at: seq<nat>, n: nat,
                        facts': seq<Act>, at': seq<nat>, k: nat)
    requires k < n < |run| && n <= |acts| && SameStep(run[..n + 1], acts[..n], facts, at, k)
    requires facts <= facts' && at <= at'
    ensures SameStep(run, acts, facts', at', k)
  {
    hide Enabled, WaiterStep, EraseAct;
    assert run[..n + 1][k] == run[k] && acts[..n][k] == acts[k] && at'[k] == at[k] && at'[k + 1] == at[k + 1];
    assert at[k] < |facts| ==> facts'[at[k]] == facts[at[k]];
  }

  lemma FollowsExtended(run: seq<State>, acts: seq<Act>, frun: seq<State>, facts: seq<Act>, at: seq<nat>,
                        frun': seq<State>, facts': seq<Act>, at': seq<nat>)
    requires |acts| > 0 && |run| == |acts| + 1 && |frun'| == |facts'| + 1
    requires Follows(run[..|acts|], acts[..|acts| - 1], frun, facts, at)
    requires frun <= frun' && facts <= facts' && at' == at + [|facts'|]
    requires SameState(run, frun', at', |acts|) && SameStep(run, acts, facts', at', |acts| - 1)
    ensures Follows(run, acts, frun', facts', at')
  {
    hide SameState, SameStep;
    var n := |acts| - 1;
    forall k | 0 <= k <= n + 1 ensures SameState(run, frun', at', k) {
      if k <= n {
        assert SameState(run[..n + 1], frun, at, k);
        SameStateFurther(run, frun, at, n, frun', at', k);
      }
    }
    forall k | 0 <= k <= n ensures SameStep(run, acts, facts', at', k) {
      if k < n {
        assert SameStep(run[..n + 1], acts[..n], facts, at, k);
        SameStepFurther(run, acts, facts, at, n, facts', at', k);
      }
    }
  }

  lemma FollowsFurther(run: seq<State>, acts: seq<Act>, frun: seq<State>, facts: seq<Act>, at: seq<nat>)
    returns (frun': seq<State>, facts': seq<Act>, at': seq<nat>)
    requires |acts| > 0 && |run| == |acts| + 1
    requires var n := |acts| - 1; Inv(run[n]) && Enabled(run[n], acts[n]) && run[n + 1] == Apply(run[n], acts[n])
    requires Follows(run[..|acts|], acts[..|acts| - 1], frun, facts, at) && IsRun(frun, facts)
    ensures IsRun(frun', facts') && Follows(run, acts, frun', facts', at')
  {
    hide Inv, Apply, Covers, IsRun, WaiterStep, Enabled, EraseAct;
    var n := |acts| - 1;
    assert SameState(run[..n + 1], frun, at, n) && run[..n + 1][n] == run[n];
    var x' := StepRefines(run[n], acts[n], frun[|facts|]);
    if WaiterStep(run[n], acts[n]) {
      frun', facts', at' := frun, facts, at + [|facts|];
    } else {
      ExtendedIsRun(frun, facts, EraseAct(run[n], acts[n]));
      frun', facts', at' := frun + [x'], facts + [EraseAct(run[n], acts[n])], at + [|facts| + 1];
    }
    FollowsExtended(run, acts, frun, facts, at, frun', facts', at');
  }

  /** Every run in which macros and functions are mixed follows, state by state and step by step, a run of
      functions alone. */
  lemma {:induction false} RefinesFunction(run: seq<State>, acts: seq<Act>)
    returns (frun: seq<State>, facts: seq<Act>, at: seq<nat>)
    requires IsRun(run, acts)
    ensures IsRun(frun, facts) && Follows(run, acts, frun, facts, at)
    ensures forall k :: 0 <= k < |facts| && facts[k].c.Enter? ==> facts[k].c.site.form.Function?
  {
    hide Inv, Init, Apply, Enabled, Covers, Follows;
    if |acts| == 0 {
      frun, facts, at := run, acts, [0];
      StartFollows(run);
    } else {
      var n := |acts| - 1;
      RunKeepsInv(run, acts);
      PrefixIsRun(run, acts, n);
      frun, facts, at := RefinesFunction(run[..n + 1], acts[..n]);
      frun, facts, at := FollowsFurther(run, acts, frun, facts, at);
    }
    forall k | 0 <= k < |facts| && facts[k].c.Enter? ensures facts[k].c.site.form.Function? {
      CallsAreOfFunctions(run, acts, frun, facts, at, k);
    }
  }

  lemma StartFollows(run: seq<State>)
    requires |run| == 1 && Init(run[0])
    ensures Follows(run, [], run, [], [0])
  {
    hide Inv, Apply, Enabled;
    assert Covers(run[0], run[0]);
  }

  /** The run followed is one of functions alone. */
  lemma CallsAreOfFunctions(run: seq<State>, acts: seq<Act>, frun: seq<State>, facts: seq<Act>, at: seq<nat>, n: nat)
    requires Follows(run, acts, frun, facts, at) && n < |facts| && facts[n].c.Enter?
    ensures facts[n].c.site.form.Function?
  {
    hide Enabled, Covers;
    var k := StepBehind(run, acts, frun, facts, at, n);
  }

  /** Every step of the followed run is the counterpart of a step. */
  lemma StepBehind(run: seq<State>, acts: seq<Act>, frun: seq<State>, facts: seq<Act>, at: seq<nat>, n: nat)
    returns (k: nat)
    requires Follows(run, acts, frun, facts, at) && n < |facts|
    ensures k < |acts| && SameStep(run, acts, facts, at, k) && at[k] == n && facts[n] == EraseAct(run[k], acts[k])
  {
    hide Enabled, Covers, WaiterStep, EraseAct;
    k := 0;
    while at[k + 1] <= n
      invariant k < |acts| && at[k] <= n
      decreases |acts| - k
    {
      assert SameStep(run, acts, facts, at, k);
      k := k + 1;
    }
    assert SameStep(run, acts, facts, at, k);
  }
}
