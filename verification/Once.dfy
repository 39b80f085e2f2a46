/** Once-initialisation on one plain flag, with the blocking functions (mulle_thread_once,
    mulle_thread_once_call) and the non-blocking ones called in any mixture by any number of threads.

    Memory is view-based. The once word is a modification order of messages; a compare-and-swap that
    succeeds acts on its newest message, every other access may return any message the thread is not
    already past. Messages of the seq_cst accesses carry what their writer had seen of the data. */
module Once {
  import opened Sums

  const DATA := 0
  const BUSY := 1848
  const DONE := 1

  datatype Msg = Msg(value: int, dview: nat)

  datatype Kind = Blocking | NonBlocking

  datatype PC =
    | Idle
    | Cas(kind: Kind)
    | Body(kind: Kind, left: nat)   // running init, which may still write `left` times
    | Barrier(kind: Kind)           // the fence after init
    | Publish(kind: Kind)
    | Spin | SpinBarrier
    | Returned(kind: Kind)

  /** view, dview: newest messages of the once word and of the data the thread has seen.
      calls: how many more calls the thread is going to make. */
  datatype Thread = Thread(pc: PC, view: nat, dview: nat, calls: nat)

  /** data: the values the initialised memory has held, oldest first. initLen: how often init may write. */
  datatype State = State(word: seq<Msg>, data: seq<int>, thr: seq<Thread>, initLen: nat)

  datatype Choice =
    | Call(kind: Kind)
    | Go(i: nat)        // the next access; i is the message it reads
    | Write(v: int)     // init writes v
    | Leave             // init returns, or the call returns

  datatype Act = Act(t: nat, c: Choice)

  predicate MayRead(s: State, t: nat, i: nat)
    requires t < |s.thr|
  {
    s.thr[t].view <= i < |s.word|
  }

  /** A strong compare-and-swap reads the newest message when it succeeds; a failing one is a load that
      returned something else than the expected value. */
  predicate MayCas(s: State, t: nat, expected: int, i: nat)
    requires t < |s.thr|
  {
    MayRead(s, t, i) && (s.word[i].value == expected ==> i == |s.word| - 1)
  }

  predicate Enabled(s: State, a: Act) {
    && a.t < |s.thr|
    && match s.thr[a.t].pc
       case Idle => a.c.Call? && s.thr[a.t].calls > 0
       case Cas(_) => a.c.Go? && MayCas(s, a.t, DATA, a.c.i)
       case Body(_, left) => (a.c.Write? && left > 0) || a.c.Leave?
       case Publish(_) => a.c.Go? && MayCas(s, a.t, BUSY, a.c.i)
       case Spin => a.c.Go? && MayRead(s, a.t, a.c.i)
       case Returned(_) => a.c.Leave?
       case _ => a.c.Go?
  }

  function SetThread(s: State, t: nat, th: Thread): State
    requires t < |s.thr|
  {
    s.(thr := s.thr[t := th])
  }

  function Max(a: nat, b: nat): nat { if a > b then a else b }

  /** An acquiring read of message i: the thread moves up to it and to what it carries. */
  function Acquire(s: State, th: Thread, i: nat): Thread
    requires i < |s.word|
  {
    th.(view := i, dview := Max(th.dview, s.word[i].dview))
  }

  /** The strong compare-and-swap as mulle-atomic-c11.h issues it; `next` is where the thread goes on. */
  function DoCas(s: State, t: nat, value: int, expected: int, i: nat, next: PC): State
    requires t < |s.thr| && i < |s.word|
  {
    var th := Acquire(s, s.thr[t], i).(pc := next);
    if s.word[i].value == expected
    then SetThread(s, t, th.(view := |s.word|)).(word := s.word + [Msg(value, th.dview)])
    else SetThread(s, t, th)
  }

  /** Where the first compare-and-swap sends a caller that read `actual`. */
  function AfterCas(kind: Kind, actual: int, initLen: nat): PC {
    if actual == DATA then Body(kind, initLen)
    else if kind.NonBlocking? || actual == DONE then Returned(kind)
    else Spin
  }

  function Apply(s: State, a: Act): State
    requires Enabled(s, a)
  {
    var t, th := a.t, s.thr[a.t];
    match th.pc
    case Idle => SetThread(s, t, th.(pc := Cas(a.c.kind), calls := th.calls - 1))
    case Cas(kind) =>
      var actual := s.word[a.c.i].value;
      DoCas(s, t, BUSY, DATA, a.c.i, AfterCas(kind, actual, s.initLen))
    case Body(kind, left) =>
      if a.c.Leave? then SetThread(s, t, th.(pc := Barrier(kind)))
      else SetThread(s, t, th.(pc := Body(kind, left - 1), dview := |s.data|)).(data := s.data + [a.c.v])
    case Barrier(kind) => SetThread(s, t, th.(pc := Publish(kind)))
    case Publish(kind) => DoCas(s, t, DONE, BUSY, a.c.i, Returned(kind))
    case Spin =>
      SetThread(s, t, Acquire(s, th, a.c.i).(pc := if s.word[a.c.i].value == DONE then SpinBarrier else Spin))
    case SpinBarrier => SetThread(s, t, th.(pc := Returned(Blocking)))
    case Returned(_) => SetThread(s, t, th.(pc := Idle))
  }

  ghost predicate Init(s: State) {
    && s.word == [Msg(DATA, 0)] && |s.data| == 1
    && forall t :: 0 <= t < |s.thr| ==> s.thr[t].pc.Idle? && s.thr[t].view == 0 && s.thr[t].dview == 0
  }

  ghost predicate IsRun(run: seq<State>, acts: seq<Act>) {
    && |run| == |acts| + 1
    && Init(run[0])
    && forall k :: 0 <= k < |acts| ==> Enabled(run[k], acts[k]) && run[k + 1] == Apply(run[k], acts[k])
  }

  lemma ExtendedIsRun(run: seq<State>, acts: seq<Act>, a: Act)
    requires IsRun(run, acts) && Enabled(run[|acts|], a)
    ensures IsRun(run + [Apply(run[|acts|], a)], acts + [a])
  {
    hide Init, Enabled, Apply;
  }

  // ---- the invariant ----

  /** Between winning the first compare-and-swap and having done the second. */
  predicate Winner(pc: PC) {
    pc.Body? || pc.Barrier? || pc.Publish?
  }

  /** The values the word has taken can only be these, in this order. */
  ghost predicate GoodWord(s: State) {
    && 1 <= |s.word| <= 3 && s.word[0].value == DATA
    && (|s.word| == 1 ==> |s.data| == 1)
    && (forall i :: 0 <= i < |s.word| ==> s.word[i].dview < |s.data|)
    && (|s.word| > 1 ==> s.word[1].value == BUSY)
    && (|s.word| > 2 ==> s.word[2].value == DONE && s.word[2].dview == |s.data| - 1)
  }

  /** Has seen DONE and with it everything init wrote. */
  predicate SeenAll(s: State, th: Thread) {
    |s.word| == 3 && th.view == 2 && th.dview == |s.data| - 1
  }

  predicate ThreadInv(s: State, th: Thread) {
    && th.view < |s.word| && th.dview < |s.data|
    && (Winner(th.pc) ==> |s.word| == 2 && th.view == 1 && th.dview == |s.data| - 1)
    && (th.pc.Spin? ==> |s.word| > 1 && th.view >= 1)
    && (th.pc.SpinBarrier? || th.pc == Returned(Blocking) ==> SeenAll(s, th))
    && (th.pc.Body? ==> th.pc.left <= s.initLen)
  }

  ghost predicate Inv(s: State) {
    && GoodWord(s)
    && (forall t :: 0 <= t < |s.thr| ==> ThreadInv(s, s.thr[t]))
    && (forall t, u :: 0 <= t < |s.thr| && 0 <= u < |s.thr| && Winner(s.thr[t].pc) && Winner(s.thr[u].pc) ==> t == u)
    && (|s.word| == 2 ==> exists t :: 0 <= t < |s.thr| && Winner(s.thr[t].pc))
  }

  lemma SelfKeepsInv(s: State, a: Act)
    requires Inv(s) && Enabled(s, a)
    ensures GoodWord(Apply(s, a)) && ThreadInv(Apply(s, a), Apply(s, a).thr[a.t])
    ensures Winner(Apply(s, a).thr[a.t].pc) ==> Winner(s.thr[a.t].pc) || |s.word| == 1
    ensures |Apply(s, a).word| == 2 && Winner(s.thr[a.t].pc) ==> Winner(Apply(s, a).thr[a.t].pc)
  {
    assert ThreadInv(s, s.thr[a.t]);
  }

  /** What a step does to the shared state: nothing, win, publish, or one write of init. */
  lemma SharedEffect(s: State, a: Act)
    requires Inv(s) && Enabled(s, a)
    ensures var s' := Apply(s, a);
      && s'.thr == s.thr[a.t := s'.thr[a.t]] && s'.initLen == s.initLen
      && (|| (s'.word == s.word && s'.data == s.data)
          || (|s.word| == 1 && |s'.word| == 2 && s'.data == s.data && Winner(s'.thr[a.t].pc))
          || (|s.word| == 2 && |s'.word| == 3 && s'.data == s.data && Winner(s.thr[a.t].pc))
          || (s'.word == s.word && |s.word| == 2 && |s'.data| == |s.data| + 1 && Winner(s.thr[a.t].pc)))
  {
    assert ThreadInv(s, s.thr[a.t]);
  }

  lemma StepKeepsInv(s: State, a: Act)
    requires Inv(s) && Enabled(s, a)
    ensures Inv(Apply(s, a))
  {
    SelfKeepsInv(s, a);
    SharedEffect(s, a);
    var s' := Apply(s, a);
    hide Apply, Enabled;
    forall u | 0 <= u < |s'.thr| ensures ThreadInv(s', s'.thr[u]) {
      if u != a.t { assert ThreadInv(s, s.thr[u]) && s'.thr[u] == s.thr[u]; }
    }
    forall u | 0 <= u < |s'.thr| && u != a.t && Winner(s'.thr[u].pc) ensures !Winner(s'.thr[a.t].pc) {
      assert ThreadInv(s, s.thr[u]);
    }
    if |s'.word| == 2 && !Winner(s'.thr[a.t].pc) {
      var w :| 0 <= w < |s.thr| && Winner(s.thr[w].pc);
      assert Winner(s'.thr[w].pc);
    }
  }

  lemma {:induction false} RunKeepsInv(run: seq<State>, acts: seq<Act>)
    requires IsRun(run, acts)
    ensures forall k :: 0 <= k < |run| ==> Inv(run[k])
  {
    if |acts| == 0 {
    } else {
      var n := |acts|;
      RunKeepsInv(run[..n], acts[..n - 1]);
      assert Inv(run[..n][n - 1]);
      StepKeepsInv(run[n - 1], acts[n - 1]);
      assert forall k :: 0 <= k < n ==> run[k] == run[..n][k];
    }
  }

  lemma StepGrows(s: State, a: Act)
    requires Inv(s) && Enabled(s, a)
    ensures s.word <= Apply(s, a).word && s.data <= Apply(s, a).data
    ensures |s.word| == 3 ==> Apply(s, a).word == s.word && Apply(s, a).data == s.data
  {
    SharedEffect(s, a);
    assert ThreadInv(s, s.thr[a.t]);
  }

  lemma PrefixTransitive<T>(x: seq<T>, y: seq<T>, z: seq<T>)
    requires x <= y <= z
    ensures x <= z
  {
  }

  /** Messages are only ever added, and once DONE is there nothing shared changes any more. */
  lemma {:induction false} SharedGrows(run: seq<State>, acts: seq<Act>, j: nat, k: nat)
    requires IsRun(run, acts) && j <= k < |run|
    ensures run[j].word <= run[k].word && run[j].data <= run[k].data
    ensures |run[j].word| == 3 ==> run[k].word == run[j].word && run[k].data == run[j].data
    decreases k - j
  {
    if j == k {
    } else {
      SharedGrows(run, acts, j, k - 1);
      assert Inv(run[k - 1]) by { RunKeepsInv(run, acts); }
      hide Inv, Apply, Enabled;
      StepGrows(run[k - 1], acts[k - 1]);
      PrefixTransitive(run[j].word, run[k - 1].word, run[k].word);
      PrefixTransitive(run[j].data, run[k - 1].data, run[k].data);
    }
  }

  // ---- safety ----

  /** Step k is where some thread enters init. */
  ghost predicate EntersInit(run: seq<State>, acts: seq<Act>, k: nat)
    requires IsRun(run, acts) && k < |acts|
  {
    run[k].thr[acts[k].t].pc.Cas? && run[k + 1].thr[acts[k].t].pc.Body?
  }

  /** Init is entered at most once in any run, however the callers are mixed. */
  lemma InitRunsOnce(run: seq<State>, acts: seq<Act>, j: nat, k: nat)
    requires IsRun(run, acts) && j < |acts| && k < |acts|
    requires EntersInit(run, acts, j) && EntersInit(run, acts, k)
    ensures j == k
  {
    RunKeepsInv(run, acts);
    assert Inv(run[j]) && Inv(run[k]);
    SharedEffect(run[j], acts[j]);
    SharedEffect(run[k], acts[k]);
    assert ThreadInv(run[j + 1], run[j + 1].thr[acts[j].t]) && ThreadInv(run[k + 1], run[k + 1].thr[acts[k].t]);
    if j < k { SharedGrows(run, acts, j + 1, k); }
    if k < j { SharedGrows(run, acts, k + 1, j); }
  }

  /** The word goes DATA, BUSY, DONE; it is BUSY exactly while one thread is between its two
      compare-and-swaps, and the second of those always succeeds. */
  lemma WordProtocol(run: seq<State>, acts: seq<Act>, k: nat)
    requires IsRun(run, acts) && k < |run|
    ensures var s := run[k];
      && 1 <= |s.word| <= 3
      && (forall i :: 0 <= i < |s.word| ==> s.word[i].value == [DATA, BUSY, DONE][i])
      && (s.word[|s.word| - 1].value == BUSY <==> exists t :: 0 <= t < |s.thr| && Winner(s.thr[t].pc))
      && (forall t, u :: 0 <= t < |s.thr| && 0 <= u < |s.thr| && Winner(s.thr[t].pc) && Winner(s.thr[u].pc) ==> t == u)
    ensures k < |acts| && run[k].thr[acts[k].t].pc.Publish? ==>
      |run[k + 1].word| == |run[k].word| + 1 && run[k + 1].word[|run[k].word|].value == DONE
  {
    RunKeepsInv(run, acts);
    assert Inv(run[k]);
    forall t | 0 <= t < |run[k].thr| && Winner(run[k].thr[t].pc) ensures |run[k].word| == 2 {
      assert ThreadInv(run[k], run[k].thr[t]);
    }
  }

  /** A blocking call that returns comes after init, and from then on every read of the initialised
      memory by that thread, however stale, finds what init left there. */
  lemma ReturnSeesInit(run: seq<State>, acts: seq<Act>, j: nat, t: nat, k: nat, i: nat)
    requires IsRun(run, acts) && j <= k < |run|
    requires t < |run[j].thr| && run[j].thr[t].pc == Returned(Blocking)
    requires run[j].thr[t].dview <= i < |run[k].data|
    ensures forall u :: 0 <= u < |run[j].thr| ==> !run[j].thr[u].pc.Body?
    ensures |run[j].data| == |run[k].data| && run[k].data[i] == run[j].data[|run[j].data| - 1]
  {
    RunKeepsInv(run, acts);
    var s := run[j];
    assert Inv(s) && ThreadInv(s, s.thr[t]);
    forall u | 0 <= u < |s.thr| ensures !s.thr[u].pc.Body? {
      assert ThreadInv(s, s.thr[u]);
    }
    SharedGrows(run, acts, j, k);
  }

  // ---- progress ----

  function PcRank(pc: PC, initLen: nat): nat {
    match pc
    case Idle => 0
    case Cas(_) => initLen + 6
    case Body(_, left) => left + 5
    case Barrier(_) => 4
    case Publish(_) => 3
    case Spin => 3
    case SpinBarrier => 2
    case Returned(_) => 1
  }

  /** What a thread still has to do, spinning aside. */
  function ThreadRank(initLen: nat, th: Thread): nat {
    th.calls * (initLen + 7) + PcRank(th.pc, initLen)
  }

  function Rank(s: State): nat {
    Total(th => ThreadRank(s.initLen, th), s.thr)
  }

  predicate FailedSpin(s: State, a: Act)
    requires Enabled(s, a)
  {
    s.thr[a.t].pc.Spin? && s.word[a.c.i].value != DONE
  }

  lemma OneCallLess(calls: nat, cost: nat)
    requires calls > 0
    ensures calls * cost == (calls - 1) * cost + cost
  {
  }

  lemma ThreadRankDrops(s: State, a: Act)
    requires Inv(s) && Enabled(s, a)
    ensures var before, after := ThreadRank(s.initLen, s.thr[a.t]), ThreadRank(s.initLen, Apply(s, a).thr[a.t]);
      if FailedSpin(s, a) then after == before else after < before
  {
    var th, th' := s.thr[a.t], Apply(s, a).thr[a.t];
    assert ThreadInv(s, th);
    if th.pc.Idle? {
      OneCallLess(th.calls, s.initLen + 7);
    } else {
      assert th'.calls == th.calls;
    }
  }

  /** Every step but a failed spin uses up rank. */
  lemma StepRank(s: State, a: Act)
    requires Inv(s) && Enabled(s, a)
    ensures if FailedSpin(s, a) then Rank(Apply(s, a)) == Rank(s) else Rank(Apply(s, a)) < Rank(s)
  {
    SharedEffect(s, a);
    ThreadRankDrops(s, a);
    hide Inv, Apply, Enabled, ThreadRank;
    var s', f := Apply(s, a), (th: Thread) => ThreadRank(s.initLen, th);
    TotalUpdate(f, s.thr, a.t, s'.thr[a.t]);
  }

  function Productive(run: seq<State>, acts: seq<Act>, k: nat): nat
    requires |run| == |acts| + 1 && k <= |acts|
    requires forall i :: 0 <= i < |acts| ==> Enabled(run[i], acts[i])
  {
    if k == 0 then 0
    else Productive(run, acts, k - 1) + if FailedSpin(run[k - 1], acts[k - 1]) then 0 else 1
  }

  /** However the scheduler interleaves the callers, all but the failed spins are bounded beforehand. */
  lemma {:induction false} WorkIsBounded(run: seq<State>, acts: seq<Act>, k: nat)
    requires IsRun(run, acts) && k <= |acts|
    ensures Productive(run, acts, k) + Rank(run[k]) <= Rank(run[0])
  {
    if k == 0 {
    } else {
      WorkIsBounded(run, acts, k - 1);
      RunKeepsInv(run, acts);
      StepRank(run[k - 1], acts[k - 1]);
    }
  }

  /** Whoever is not finished, somebody can take a productive step: if a spinning thread still reads
      BUSY in the newest message, that is the winner, and after DONE the newest message lets it out. */
  lemma NeverStuck(run: seq<State>, acts: seq<Act>, k: nat, t: nat)
    requires IsRun(run, acts) && k < |run| && t < |run[k].thr|
    requires !run[k].thr[t].pc.Idle? || run[k].thr[t].calls > 0
    ensures |run[k].word| > 0
    ensures var s, newest := run[k], Act(t, Go(|run[k].word| - 1));
      if s.thr[t].pc.Spin? && s.word[|s.word| - 1].value == BUSY
      then exists w, c :: 0 <= w < |s.thr| && Winner(s.thr[w].pc) && Enabled(s, Act(w, c)) && !FailedSpin(s, Act(w, c))
      else if s.thr[t].pc.Spin? then Enabled(s, newest) && Apply(s, newest).thr[t].pc.SpinBarrier?
      else exists c :: Enabled(s, Act(t, c)) && !FailedSpin(s, Act(t, c))
  {
    RunKeepsInv(run, acts);
    var s := run[k];
    var last := Go(|s.word| - 1);
    assert Inv(s) && ThreadInv(s, s.thr[t]);
    if s.thr[t].pc.Spin? && s.word[|s.word| - 1].value == BUSY {
      var w :| 0 <= w < |s.thr| && Winner(s.thr[w].pc);
      assert ThreadInv(s, s.thr[w]);
      var c := if s.thr[w].pc.Body? then Leave else last;
      assert Enabled(s, Act(w, c)) && !FailedSpin(s, Act(w, c));
    } else if !s.thr[t].pc.Spin? {
      var pc := s.thr[t].pc;
      var c := if pc.Idle? then Call(Blocking) else if pc.Body? || pc.Returned? then Leave else last;
      assert Enabled(s, Act(t, c)) && !FailedSpin(s, Act(t, c));
    }
  }
}
