/** The compare-and-swap test of test/atomic/cas.c: threads meet at a countdown barrier and then add to
    one word by read and weak compare-and-swap, which may fail spuriously as often as it likes. Reads of
    both may be stale as far as coherence lets them. */
module CasTest {
  import opened Words
  import opened Sums

  datatype PC =
    | Arrive          // decrements the barrier
    | Gather          // spins until the barrier reads 0
    | Read
    | WeakCas(expected: int)
    | Finished

  /** added: successful compare-and-swaps of this thread, the loop variable i.
      barrierView, view: the newest messages of the barrier and of the word the thread has seen. */
  datatype Thread = Thread(pc: PC, added: nat, barrierView: nat, view: nat)

  /** The values that the barrier and the word have had, oldest first. */
  datatype State = State(barrier: seq<int>, central: seq<int>, thr: seq<Thread>, loops: nat)

  /** i: the message that the access reads, unless it is a read-modify-write that succeeds: that one acts on
      the newest. spurious: the compare-and-swap fails although the newest message is as expected. */
  datatype Act = Act(t: nat, i: nat, spurious: bool)

  function Newest(word: seq<int>): int
    requires |word| > 0
  {
    word[|word| - 1]
  }

  predicate Enabled(s: State, a: Act) {
    && a.t < |s.thr| && |s.barrier| > 0 && |s.central| > 0
    && match s.thr[a.t].pc
       case Arrive => true
       case Gather => s.thr[a.t].barrierView <= a.i < |s.barrier|
       case Read => s.thr[a.t].view <= a.i < |s.central|
       case WeakCas(_) => s.thr[a.t].view <= a.i < |s.central|
       case Finished => false
  }

  /** Top of the for loop. */
  function Next(s: State, th: Thread, added: nat): Thread {
    th.(pc := if added < s.loops then Read else Finished, added := added)
  }

  predicate Succeeds(s: State, a: Act)
    requires Enabled(s, a)
  {
    s.thr[a.t].pc.WeakCas? && Newest(s.central) == s.thr[a.t].pc.expected && !a.spurious
  }

  function Apply(s: State, a: Act): State
    requires Enabled(s, a)
  {
    var t, th := a.t, s.thr[a.t];
    match th.pc
    case Arrive =>
      s.(barrier := s.barrier + [Newest(s.barrier) - 1], thr := s.thr[t := th.(pc := Gather,
          barrierView := |s.barrier|)])
    case Gather =>
      var seen := th.(barrierView := a.i);
      s.(thr := s.thr[t := if s.barrier[a.i] != 0 then seen else Next(s, seen, th.added)])
    case Read => s.(thr := s.thr[t := th.(pc := WeakCas(s.central[a.i]), view := a.i)])
    case WeakCas(expected) =>
      if Succeeds(s, a)
      then s.(central := s.central + [(expected + 1) % WORD_SIZE],
              thr := s.thr[t := Next(s, th.(view := |s.central|), th.added + 1)])
      else s.(thr := s.thr[t := th.(pc := Read, view := a.i)])
    case Finished => s
  }

  ghost predicate Init(s: State) {
    && s.barrier == [|s.thr|] && s.central == [0]
    && forall t :: 0 <= t < |s.thr| ==> s.thr[t] == Thread(Arrive, 0, 0, 0)
  }

  ghost predicate IsRun(run: seq<State>, acts: seq<Act>) {
    && |run| == |acts| + 1
    && Init(run[0])
    && forall k :: 0 <= k < |acts| ==> Enabled(run[k], acts[k]) && run[k + 1] == Apply(run[k], acts[k])
  }

  function Added(th: Thread): nat { th.added }

  function Missing(th: Thread): nat { if th.pc.Arrive? then 1 else 0 }

  /** Successful compare-and-swaps so far, by all threads. */
  function Successes(s: State): nat { Total(Added, s.thr) }

  /** The barrier has counted down one by one, and the word up, once for each success. */
  ghost predicate Counted(s: State) {
    && |s.barrier| + Total(Missing, s.thr) == |s.thr| + 1 && |s.barrier| > 0
    && (forall i :: 0 <= i < |s.barrier| ==> s.barrier[i] == |s.thr| - i)
    && |s.central| == Successes(s) + 1
    && (forall i :: 0 <= i < |s.central| ==> s.central[i] == i % WORD_SIZE)
  }

  ghost predicate ThreadInv(s: State, th: Thread) {
    && th.added <= s.loops
    && (th.pc.Finished? ==> th.added == s.loops)
    && (th.pc.Read? || th.pc.WeakCas? ==> th.added < s.loops)
    && (th.pc.WeakCas? ==> 0 <= th.pc.expected < WORD_SIZE)
    && (!th.pc.Arrive? && !th.pc.Gather? ==> |s.barrier| == |s.thr| + 1)
    && th.barrierView < |s.barrier| && th.view < |s.central|
  }

  ghost predicate Inv(s: State) {
    && Counted(s)
    && (forall t :: 0 <= t < |s.thr| ==> ThreadInv(s, s.thr[t]))
  }

  lemma StepIsCounted(s: State, a: Act)
    requires Inv(s) && Enabled(s, a)
    ensures Counted(Apply(s, a))
  {
    var th := Apply(s, a).thr[a.t];
    assert Counted(s) && ThreadInv(s, s.thr[a.t]);
    hide Inv, ThreadInv;
    TotalUpdate(Added, s.thr, a.t, th);
    TotalUpdate(Missing, s.thr, a.t, th);
    if Succeeds(s, a) { NextResidue(|s.central| - 1); }
  }

  lemma NextResidue(n: nat)
    ensures (n % WORD_SIZE + 1) % WORD_SIZE == (n + 1) % WORD_SIZE
  {
  }

  lemma StepKeepsThreads(s: State, a: Act)
    requires Inv(s) && Enabled(s, a)
    ensures |Apply(s, a).thr| == |s.thr| && Apply(s, a).loops == s.loops
    ensures forall u :: 0 <= u < |s.thr| ==> ThreadInv(Apply(s, a), Apply(s, a).thr[u])
  {
    var s' := Apply(s, a);
    assert ThreadInv(s, s.thr[a.t]);
    if s.thr[a.t].pc.Arrive? { TotalBounds(Missing, s.thr); }
    forall u | 0 <= u < |s.thr| ensures ThreadInv(s', s'.thr[u]) {
      if u != a.t { assert ThreadInv(s, s.thr[u]) && s'.thr[u] == s.thr[u]; }
    }
  }

  lemma StepKeepsInv(s: State, a: Act)
    requires Inv(s) && Enabled(s, a)
    ensures Inv(Apply(s, a)) && |Apply(s, a).thr| == |s.thr| && Apply(s, a).loops == s.loops
  {
    StepIsCounted(s, a);
    StepKeepsThreads(s, a);
    hide Counted, ThreadInv, Apply, Enabled;
  }

  lemma {:induction false} RunKeepsInv(run: seq<State>, acts: seq<Act>)
    requires IsRun(run, acts)
    ensures forall k :: 0 <= k < |run| ==> Inv(run[k]) && run[k].loops == run[0].loops && |run[k].thr| == |run[0].thr|
  {
    if |acts| == 0 {
      TotalConstant(Missing, run[0].thr, 1);
      TotalConstant(Added, run[0].thr, 0);
    } else {
      var n := |acts|;
      RunKeepsInv(run[..n], acts[..n - 1]);
      assert Inv(run[..n][n - 1]);
      hide Inv, Apply;
      StepKeepsInv(run[n - 1], acts[n - 1]);
      assert forall k :: 0 <= k < n ==> run[k] == run[..n][k];
    }
  }

  /** The word always counts the successes, nobody is past the barrier before everybody has reached it,
      stale as its reads may be, and no swap is of a value for itself. */
  lemma WordCountsSuccesses(run: seq<State>, acts: seq<Act>, k: nat)
    requires IsRun(run, acts) && k < |run|
    ensures |run[k].central| > 0 && Newest(run[k].central) == Successes(run[k]) % WORD_SIZE
    ensures (exists t :: 0 <= t < |run[k].thr| && !run[k].thr[t].pc.Arrive? && !run[k].thr[t].pc.Gather?) ==>
      forall t :: 0 <= t < |run[k].thr| ==> !run[k].thr[t].pc.Arrive?
    ensures forall t :: 0 <= t < |run[k].thr| && run[k].thr[t].pc.WeakCas? ==>
      (run[k].thr[t].pc.expected + 1) % WORD_SIZE != run[k].thr[t].pc.expected
  {
    RunKeepsInv(run, acts);
    var s := run[k];
    assert Inv(s);
    TotalBounds(Missing, s.thr);
    forall t | 0 <= t < |s.thr| && s.thr[t].pc.WeakCas?
      ensures (s.thr[t].pc.expected + 1) % WORD_SIZE != s.thr[t].pc.expected
    {
      assert ThreadInv(s, s.thr[t]);
    }
    if t :| 0 <= t < |s.thr| && !s.thr[t].pc.Arrive? && !s.thr[t].pc.Gather? {
      assert ThreadInv(s, s.thr[t]);
    }
  }

  /** When all threads are done the word is the number of threads times the number of loops, as the test
      asserts; however often the compare-and-swaps failed. */
  lemma FinalCount(run: seq<State>, acts: seq<Act>, k: nat)
    requires IsRun(run, acts) && k < |run|
    requires forall t :: 0 <= t < |run[k].thr| ==> run[k].thr[t].pc.Finished?
    ensures |run[k].central| > 0 && Newest(run[k].central) == |run[0].thr| * run[0].loops % WORD_SIZE
  {
    RunKeepsInv(run, acts);
    var s := run[k];
    assert Inv(s);
    forall t | 0 <= t < |s.thr| ensures Added(s.thr[t]) == s.loops {
      assert ThreadInv(s, s.thr[t]);
    }
    TotalConstant(Added, s.thr, s.loops);
  }
}
