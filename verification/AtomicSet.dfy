/** _mulle_atomic_pointer_set (and its twin for function pointers): an exchange built as a loop around a
    compare-and-swap that returns what it saw. Any number of threads exchange on one word. */
module AtomicSet {

  datatype PC = Outside | Trying(value: int, expected: int)

  /** view: the newest message of the word that the thread has seen. */
  datatype Thread = Thread(pc: PC, view: nat)

  /** mayFail: the weak compare-and-swap of the platform can fail spuriously, in which case it reports
      the expected value as seen. Not so with mintomic, where it is the strong one.
      word: the values the word has had, oldest first.
      given, handed: values passed to and returned by the calls that are over.
      dropped, repeated: the same for those calls that a spurious failure ended. */
  datatype State = State(mayFail: bool, word: seq<int>, thr: seq<Thread>,
                         given: multiset<int>, handed: multiset<int>,
                         dropped: multiset<int>, repeated: multiset<int>)

  /** i: the message that the compare-and-swap reads. */
  datatype Choice = Call(value: int) | WeakCas(i: nat, spurious: bool)

  datatype Act = Act(t: nat, c: Choice)

  function Newest(s: State): int
    requires |s.word| > 0
  {
    s.word[|s.word| - 1]
  }

  /** A compare-and-swap succeeds on the newest message only; one that fails is a load, which may be stale,
      and which has read something else than expected unless the failure is spurious. */
  predicate Enabled(s: State, a: Act) {
    && a.t < |s.thr| && |s.word| > 0
    && match s.thr[a.t].pc
       case Outside => a.c.Call?
       case Trying(_, expected) =>
         && a.c.WeakCas? && s.thr[a.t].view <= a.c.i < |s.word|
         && (a.c.spurious ==> s.mayFail && s.word[a.c.i] == expected)
         && (s.word[a.c.i] == expected && !a.c.spurious ==> a.c.i == |s.word| - 1)
  }

  function Apply(s: State, a: Act): State
    requires Enabled(s, a)
  {
    var t, th := a.t, s.thr[a.t];
    match th.pc
    case Outside => s.(thr := s.thr[t := th.(pc := Trying(a.c.value, a.c.value))])
    case Trying(value, expected) =>
      var swaps := s.word[a.c.i] == expected && !a.c.spurious;
      var previous := s.word[a.c.i];
      var s' := if swaps then s.(word := s.word + [value]) else s;
      if previous != expected then s'.(thr := s.thr[t := Thread(Trying(value, previous), a.c.i)])
      else
        s'.(thr := s.thr[t := Thread(Outside, if swaps then |s.word| else a.c.i)],
            given := s.given + multiset{value}, handed := s.handed + multiset{previous},
            dropped := if swaps then s.dropped else s.dropped + multiset{value},
            repeated := if swaps then s.repeated else s.repeated + multiset{previous})
  }

  ghost predicate Init(s: State) {
    && |s.word| == 1
    && s.given == s.handed == s.dropped == s.repeated == multiset{}
    && forall t :: 0 <= t < |s.thr| ==> s.thr[t] == Thread(Outside, 0)
  }

  ghost predicate IsRun(run: seq<State>, acts: seq<Act>) {
    && |run| == |acts| + 1
    && Init(run[0])
    && forall k :: 0 <= k < |acts| ==> Enabled(run[k], acts[k]) && run[k + 1] == Apply(run[k], acts[k])
  }

  /** An attempt that reads what it expects, and does not fail spuriously, stores its value, whatever the
      platform; every other attempt leaves the word alone. */
  lemma AttemptStores(s: State, a: Act)
    requires Enabled(s, a) && s.thr[a.t].pc.Trying?
    ensures Apply(s, a).word ==
      if s.word[a.c.i] == s.thr[a.t].pc.expected && !a.c.spurious then s.word + [s.thr[a.t].pc.value] else s.word
    ensures Apply(s, a).word != s.word ==> a.c.i == |s.word| - 1
  {
  }

  /** Nothing is lost and nothing handed out twice: what was there and what was stored is what was handed
      back and what is there. */
  predicate Conserved(first: State, s: State) {
    |first.word| > 0 && |s.word| > 0 && multiset{Newest(first)} + s.given == multiset{Newest(s)} + s.handed
  }

  predicate Balanced(first: int, s: State) {
    |s.word| > 0 && multiset{first} + s.given + s.repeated == multiset{Newest(s)} + s.handed + s.dropped
  }

  lemma StepBalances(first: int, s: State, a: Act)
    requires Balanced(first, s) && Enabled(s, a)
    ensures Balanced(first, Apply(s, a))
  {
    var s' := Apply(s, a);
    forall v ensures
      (multiset{first} + s'.given + s'.repeated)[v] == (multiset{Newest(s')} + s'.handed + s'.dropped)[v]
    {
      assert (multiset{first} + s.given + s.repeated)[v] == (multiset{Newest(s)} + s.handed + s.dropped)[v];
    }
  }

  /** The books balance in every run once the calls ended by spurious failures are entered separately. */
  lemma {:induction false} Ledger(run: seq<State>, acts: seq<Act>, k: nat)
    requires IsRun(run, acts) && k < |run|
    ensures |run[0].word| > 0 && Balanced(Newest(run[0]), run[k])
    ensures run[k].mayFail == run[0].mayFail
    ensures !run[0].mayFail ==> run[k].dropped == multiset{} && run[k].repeated == multiset{}
  {
    if k == 0 {
      assert Balanced(Newest(run[0]), run[0]);
    } else {
      hide Balanced;
      Ledger(run, acts, k - 1);
      StepBalances(Newest(run[0]), run[k - 1], acts[k - 1]);
    }
  }

  /** A run conserves values exactly when the values its spurious failures dropped are, as a multiset,
      the values they handed back again. */
  lemma ConservedExactlyIf(run: seq<State>, acts: seq<Act>, k: nat)
    requires IsRun(run, acts) && k < |run|
    ensures Conserved(run[0], run[k]) <==> run[k].dropped == run[k].repeated
  {
    Ledger(run, acts, k);
    var s := run[k];
    assert Balanced(Newest(run[0]), s);
    var x, y := multiset{Newest(run[0])} + s.given, multiset{Newest(s)} + s.handed;
    assert x + s.repeated == y + s.dropped;
    if s.dropped == s.repeated {
      forall v ensures x[v] == y[v] {
        assert (x + s.repeated)[v] == (y + s.dropped)[v];
      }
    }
    if x == y {
      forall v ensures s.dropped[v] == s.repeated[v] {
        assert (x + s.repeated)[v] == (y + s.dropped)[v];
      }
    }
  }

  ghost predicate AlwaysConserved(mayFail: bool) {
    forall run: seq<State>, acts: seq<Act>, k: nat ::
      IsRun(run, acts) && run[0].mayFail == mayFail && k < |run| ==> Conserved(run[0], run[k])
  }

  /** One spurious failure at the wrong moment: the call returns the word's value as if it had taken it
      out, the word keeps it, and the new value is gone. */
  lemma SpuriousFailureLosesAValue() returns (run: seq<State>, acts: seq<Act>)
    ensures IsRun(run, acts) && run[0].mayFail && !Conserved(run[0], run[|acts|])
  {
    var none: multiset<int> := multiset{};
    var s0 := State(true, [1], [Thread(Outside, 0)], none, none, none, none);
    acts := [Act(0, Call(2)), Act(0, WeakCas(0, false)), Act(0, WeakCas(0, true))];
    var s1 := Apply(s0, acts[0]);
    var s2 := Apply(s1, acts[1]);
    var s3 := Apply(s2, acts[2]);
    run := [s0, s1, s2, s3];
    assert s3.dropped == multiset{2} && s3.repeated == multiset{1};
    assert s3.dropped[2] != s3.repeated[2];
    ConservedExactlyIf(run, acts, 3);
  }

  /** So the exchange is one exactly on platforms whose weak compare-and-swap never fails spuriously. */
  lemma ExchangeNeedsReliableCas(mayFail: bool)
    ensures AlwaysConserved(mayFail) <==> !mayFail
  {
    if mayFail {
      var run, acts := SpuriousFailureLosesAValue();
      assert !Conserved(run[0], run[|acts|]);
    } else {
      forall run: seq<State>, acts: seq<Act>, k: nat | IsRun(run, acts) && run[0].mayFail == mayFail && k < |run|
        ensures Conserved(run[0], run[k])
      {
        Ledger(run, acts, k);
        ConservedExactlyIf(run, acts, k);
      }
    }
  }
}
