/** The producers and consumers of test/cond/cond-stress.c over a mutex and a condition variable with
    spurious wakeups, for any number of either and any number of items.

    The mutex and condition variable are the abstract ones the backends implement: wait releases the
    mutex and sleeps in one step, a signal wakes at least one sleeper if there is any. */
module CondStress {
  import opened Sums

  datatype Who = Nobody | Producer(i: nat) | Consumer(j: nat) | Main

  datatype PState = PLock | PPut | PSignal | PUnlock

  /** left: items still to be produced, this one included. */
  datatype Prod = Prod(pc: PState, left: nat)

  datatype Cons =
    | CLock                  // about to lock, top of the outer loop
    | CTest                  // the while condition, mutex held
    | CWait                  // calling wait, mutex held
    | CAsleep
    | CRelock                // woken, reacquiring inside wait
    | CTake
    | CUnlock(exit: bool)
    | CExited

  datatype MState = MJoinProducers | MLock | MSetDone | MBroadcast | MUnlock | MJoinConsumers | MEnd

  datatype State = State(queue: nat, done: bool, holder: Who, prod: seq<Prod>, cons: seq<Cons>, main: MState,
                         produced: nat, consumed: nat)

  datatype Act =
    | StepProducer(i: nat, woken: set<nat>)  // woken: the sleepers a signal wakes
    | StepConsumer(j: nat)
    | StepMain
    | Spurious(j: nat)

  predicate Finished(p: Prod) { p.left == 0 }

  function Sleepers(s: State): set<nat> {
    set j: nat | j < |s.cons| && s.cons[j].CAsleep?
  }

  predicate Enabled(s: State, a: Act) {
    match a
    case StepProducer(i, woken) =>
      && i < |s.prod| && !Finished(s.prod[i])
      && (match s.prod[i].pc
          case PLock => s.holder.Nobody?
          case PSignal => s.holder == Producer(i) && woken <= Sleepers(s) && (Sleepers(s) != {} ==> woken != {})
          case _ => s.holder == Producer(i))
    case StepConsumer(j) =>
      && j < |s.cons|
      && (match s.cons[j]
          case CLock => s.holder.Nobody?
          case CRelock => s.holder.Nobody?
          case CAsleep => false
          case CExited => false
          case _ => s.holder == Consumer(j))
    case StepMain =>
      (match s.main
       case MJoinProducers => forall i :: 0 <= i < |s.prod| ==> Finished(s.prod[i])
       case MLock => s.holder.Nobody?
       case MJoinConsumers => forall j :: 0 <= j < |s.cons| ==> s.cons[j].CExited?
       case MEnd => false
       case _ => s.holder.Main?)
    case Spurious(j) => j < |s.cons| && s.cons[j].CAsleep?
  }

  function Wake(cons: seq<Cons>, woken: set<nat>): (r: seq<Cons>)
    ensures |r| == |cons|
  {
    seq(|cons|, j requires 0 <= j < |cons| => if j in woken && cons[j].CAsleep? then CRelock else cons[j])
  }

  function Apply(s: State, a: Act): State
    requires Enabled(s, a)
  {
    match a
    case StepProducer(i, woken) =>
      var p := s.prod[i];
      (match p.pc
       case PLock => s.(holder := Producer(i), prod := s.prod[i := p.(pc := PPut)])
       case PPut => s.(queue := s.queue + 1, produced := s.produced + 1, prod := s.prod[i := p.(pc := PSignal)])
       case PSignal => s.(cons := Wake(s.cons, woken), prod := s.prod[i := p.(pc := PUnlock)])
       case PUnlock => s.(holder := Nobody, prod := s.prod[i := Prod(PLock, p.left - 1)]))
    case StepConsumer(j) =>
      (match s.cons[j]
       case CLock => s.(holder := Consumer(j), cons := s.cons[j := CTest])
       case CTest =>
         s.(cons := s.cons[j := if s.queue == 0 && !s.done then CWait
                                else if s.queue > 0 then CTake else CUnlock(true)])
       case CWait => s.(holder := Nobody, cons := s.cons[j := CAsleep])
       case CAsleep => s
       case CRelock => s.(holder := Consumer(j), cons := s.cons[j := CTest])
       case CTake =>
         s.(queue := if s.queue > 0 then s.queue - 1
                 else 0, consumed := s.consumed + 1, cons := s.cons[j := CUnlock(false)])
       case CUnlock(exit) => s.(holder := Nobody, cons := s.cons[j := if exit then CExited else CLock])
       case CExited => s)
    case StepMain =>
      (match s.main
       case MJoinProducers => s.(main := MLock)
       case MLock => s.(holder := Main, main := MSetDone)
       case MSetDone => s.(done := true, main := MBroadcast)
       case MBroadcast => s.(cons := Wake(s.cons, Sleepers(s)), main := MUnlock)
       case MUnlock => s.(holder := Nobody, main := MJoinConsumers)
       case MJoinConsumers => s.(main := MEnd)
       case MEnd => s)
    case Spurious(j) => s.(cons := s.cons[j := CRelock])
  }

  ghost predicate Init(s: State) {
    && s.queue == 0 && !s.done && s.holder.Nobody? && s.main.MJoinProducers? && s.produced == 0 && s.consumed == 0
    && (forall i :: 0 <= i < |s.prod| ==> s.prod[i].pc.PLock?)
    && (forall j :: 0 <= j < |s.cons| ==> s.cons[j].CLock?)
  }

  ghost predicate IsRun(run: seq<State>, acts: seq<Act>) {
    && |run| == |acts| + 1
    && Init(run[0])
    && forall k :: 0 <= k < |acts| ==> Enabled(run[k], acts[k]) && run[k + 1] == Apply(run[k], acts[k])
  }

  // ---- counting ----

  function IsAwake(c: Cons): nat { if c.CAsleep? || c.CExited? then 0 else 1 }

  /** Live consumers that are not asleep. */
  function Awake(s: State): nat { Total(IsAwake, s.cons) }

  /** Items no producer has put into the queue yet. */
  function ToCome(p: Prod): nat {
    if p.left == 0 then 0 else if p.pc.PSignal? || p.pc.PUnlock? then p.left - 1 else p.left
  }

  function Planned(s: State): nat { Total(ToCome, s.prod) }

  lemma WakingAddsAwake(cons: seq<Cons>, woken: set<nat>)
    ensures Total(IsAwake, Wake(cons, woken)) >= Total(IsAwake, cons)
    ensures (exists j: nat :: j < |cons| && j in woken && cons[j].CAsleep?) ==>
      Total(IsAwake, Wake(cons, woken)) > Total(IsAwake, cons)
  {
    TotalMonotone(IsAwake, cons, Wake(cons, woken));
    if j: nat :| j < |cons| && j in woken && cons[j].CAsleep? {
      assert IsAwake(cons[j]) < IsAwake(Wake(cons, woken)[j]);
    }
  }

  // ---- the invariant ----

  predicate Holding(c: Cons) {
    c.CTest? || c.CWait? || c.CTake? || c.CUnlock?
  }

  predicate MainHolding(m: MState) {
    m.MSetDone? || m.MBroadcast? || m.MUnlock?
  }

  ghost predicate Ordered(s: State) {
    && (forall i :: 0 <= i < |s.prod| ==> (s.holder == Producer(i) <==> !s.prod[i].pc.PLock?))
    && (forall i :: 0 <= i < |s.prod| && Finished(s.prod[i]) ==> s.prod[i].pc.PLock?)
    && (forall j :: 0 <= j < |s.cons| ==> (s.holder == Consumer(j) <==> Holding(s.cons[j])))
    && (s.holder.Main? <==> MainHolding(s.main))
    && (s.holder.Producer? ==> s.holder.i < |s.prod|) && (s.holder.Consumer? ==> s.holder.j < |s.cons|)
    && (forall j :: 0 <= j < |s.cons| && s.cons[j].CWait? ==> s.queue == 0 && !s.done)
    && (forall j :: 0 <= j < |s.cons| && s.cons[j].CTake? ==> s.queue > 0)
    && (forall j :: 0 <= j < |s.cons| && (s.cons[j] == CUnlock(true) || s.cons[j].CExited?) ==> s.queue == 0 && s.done)
    && (!s.main.MJoinProducers? ==> forall i :: 0 <= i < |s.prod| ==> Finished(s.prod[i]))
    && (s.done <==> !(s.main.MJoinProducers? || s.main.MLock? || s.main.MSetDone?))
    && (s.done && !s.main.MBroadcast? ==> forall j :: 0 <= j < |s.cons| ==> !s.cons[j].CAsleep?)
    && (s.main.MEnd? ==> forall j :: 0 <= j < |s.cons| ==> s.cons[j].CExited?)
    && s.produced == s.consumed + s.queue
  }

  /** While a consumer sleeps, there is an awake consumer for every queued item, or one item's signal is
      still to be sent. */
  ghost predicate NoLostWakeup(s: State) {
    Sleepers(s) != {} ==>
      s.queue <= Awake(s) + if exists i :: 0 <= i < |s.prod| && s.prod[i].pc.PSignal? then 1 else 0
  }

  ghost predicate Inv(s: State) { Ordered(s) && NoLostWakeup(s) }

  lemma ProducerKeepsOrder(s: State, a: Act)
    requires Ordered(s) && Enabled(s, a) && a.StepProducer?
    ensures Ordered(Apply(s, a))
  {
  }

  lemma LockingKeepsOrder(s: State, a: Act)
    requires Ordered(s) && Enabled(s, a) && a.StepConsumer? && (s.cons[a.j].CLock? || s.cons[a.j].CRelock?)
    ensures Ordered(Apply(s, a))
  {
  }

  lemma ReleasingKeepsOrder(s: State, a: Act)
    requires Ordered(s) && Enabled(s, a) && a.StepConsumer? && (s.cons[a.j].CWait? || s.cons[a.j].CUnlock?)
    ensures Ordered(Apply(s, a))
  {
  }

  lemma HoldingKeepsOrder(s: State, a: Act)
    requires Ordered(s) && Enabled(s, a) && a.StepConsumer? && (s.cons[a.j].CTest? || s.cons[a.j].CTake?)
    ensures Ordered(Apply(s, a))
  {
  }

  lemma WakingKeepsOrder(s: State, a: Act)
    requires Ordered(s) && Enabled(s, a) && a.Spurious?
    ensures Ordered(Apply(s, a))
  {
  }

  lemma ConsumerKeepsOrder(s: State, a: Act)
    requires Ordered(s) && Enabled(s, a) && (a.StepConsumer? || a.Spurious?)
    ensures Ordered(Apply(s, a))
  {
    hide Ordered, Apply;
    if a.Spurious? { WakingKeepsOrder(s, a); }
    else if s.cons[a.j].CLock? || s.cons[a.j].CRelock? { LockingKeepsOrder(s, a); }
    else if s.cons[a.j].CWait? || s.cons[a.j].CUnlock? { ReleasingKeepsOrder(s, a); }
    else { HoldingKeepsOrder(s, a); }
  }

  lemma MainKeepsOrder(s: State, a: Act)
    requires Ordered(s) && Enabled(s, a) && a.StepMain?
    ensures Ordered(Apply(s, a))
  {
  }

  lemma ProducerLosesNoWakeup(s: State, a: Act)
    requires Inv(s) && Enabled(s, a) && a.StepProducer?
    ensures NoLostWakeup(Apply(s, a))
  {
    var s' := Apply(s, a);
    WakingAddsAwake(s.cons, a.woken);
    assert s'.prod[a.i].pc.PSignal? || !s.prod[a.i].pc.PPut?;
    if s.prod[a.i].pc.PSignal? && Sleepers(s) != {} {
      var j :| j in a.woken;
      assert j in Sleepers(s);
    }
  }

  lemma ConsumerLosesNoWakeup(s: State, a: Act)
    requires Inv(s) && Enabled(s, a) && (a.StepConsumer? || a.Spurious?)
    ensures NoLostWakeup(Apply(s, a))
  {
    var s' := Apply(s, a);
    TotalUpdate(IsAwake, s.cons, a.j, s'.cons[a.j]);
    if s'.queue > 0 && Sleepers(s') != {} {
      var j :| j in Sleepers(s');
      assert j in Sleepers(s);
    }
  }

  lemma MainLosesNoWakeup(s: State, a: Act)
    requires Inv(s) && Enabled(s, a) && a.StepMain?
    ensures NoLostWakeup(Apply(s, a))
  {
    WakingAddsAwake(s.cons, Sleepers(s));
    if s.main.MBroadcast? {
      assert Sleepers(Apply(s, a)) == {};
    }
  }

  lemma StepKeepsInv(s: State, a: Act)
    requires Inv(s) && Enabled(s, a)
    ensures Inv(Apply(s, a))
  {
    hide Ordered, NoLostWakeup, Apply, Enabled;
    match a
    case StepProducer(_, _) => ProducerKeepsOrder(s, a); ProducerLosesNoWakeup(s, a);
    case StepMain => MainKeepsOrder(s, a); MainLosesNoWakeup(s, a);
    case _ => ConsumerKeepsOrder(s, a); ConsumerLosesNoWakeup(s, a);
  }

  lemma {:induction false} RunKeepsInv(run: seq<State>, acts: seq<Act>)
    requires IsRun(run, acts)
    ensures forall k :: 0 <= k < |run| ==> Inv(run[k])
  {
    if |acts| == 0 {
      assert Sleepers(run[0]) == {};
    } else {
      var n := |acts|;
      RunKeepsInv(run[..n], acts[..n - 1]);
      assert Inv(run[..n][n - 1]);
      hide Inv, Apply, Enabled;
      StepKeepsInv(run[n - 1], acts[n - 1]);
      assert forall k :: 0 <= k < n ==> run[k] == run[..n][k];
    }
  }

  // ---- what the test relies on, in every run ----

  /** No wakeup is lost: while nobody holds the mutex and a consumer sleeps, the awake consumers are
      enough for what is queued. */
  lemma SleepersAreNotNeeded(run: seq<State>, acts: seq<Act>, k: nat, j: nat)
    requires IsRun(run, acts) && k < |run|
    requires run[k].holder.Nobody? && j < |run[k].cons| && run[k].cons[j].CAsleep?
    ensures run[k].queue <= Awake(run[k])
  {
    RunKeepsInv(run, acts);
    assert Inv(run[k]);
    assert j in Sleepers(run[k]);
  }

  lemma StepKeepsPlan(s: State, a: Act)
    requires Inv(s) && Enabled(s, a)
    ensures Apply(s, a).produced + Planned(Apply(s, a)) == s.produced + Planned(s)
    ensures |Apply(s, a).cons| == |s.cons|
  {
    if a.StepProducer? {
      TotalUpdate(ToCome, s.prod, a.i, Apply(s, a).prod[a.i]);
    }
  }

  function Items(p: Prod): nat { p.left }

  /** What is planned at the start is every item of every producer. */
  lemma PlanIsAllItems(s: State)
    requires Init(s)
    ensures Planned(s) == Total(Items, s.prod)
  {
    TotalAlike(ToCome, Items, s.prod);
  }

  lemma {:induction false} PlanIsKept(run: seq<State>, acts: seq<Act>, k: nat)
    requires IsRun(run, acts) && k < |run|
    ensures run[k].produced + Planned(run[k]) == Planned(run[0])
    ensures |run[k].cons| == |run[0].cons|
  {
    hide Inv, Apply, Enabled, Planned;
    if k == 0 {
    } else {
      PlanIsKept(run, acts, k - 1);
      RunKeepsInv(run, acts);
      StepKeepsPlan(run[k - 1], acts[k - 1]);
    }
  }

  /** Items are conserved: planned, queued and consumed ones add up to what was planned at the start. */
  lemma ItemsAreConserved(run: seq<State>, acts: seq<Act>, k: nat)
    requires IsRun(run, acts) && k < |run|
    ensures run[k].consumed + run[k].queue + Planned(run[k]) == Planned(run[0])
    ensures |run[k].cons| == |run[0].cons|
  {
    RunKeepsInv(run, acts);
    assert Inv(run[k]);
    hide Apply, Enabled, Planned;
    PlanIsKept(run, acts, k);
  }

  /** When main has joined everybody, every item was consumed if there was a consumer at all, and is
      still in the queue if there was none. */
  lemma AllItemsConsumed(run: seq<State>, acts: seq<Act>, k: nat)
    requires IsRun(run, acts) && k < |run| && run[k].main.MEnd?
    ensures if |run[0].cons| > 0 then run[k].queue == 0 && run[k].consumed == Planned(run[0])
            else run[k].queue == Planned(run[0])
  {
    RunKeepsInv(run, acts);
    var s := run[k];
    assert Inv(s);
    ItemsAreConserved(run, acts, k);
    TotalBounds(ToCome, s.prod);
    if |s.cons| > 0 {
      assert s.cons[0].CExited?;
    } else {
      NobodyConsumes(run, acts, k);
    }
  }

  lemma {:induction false} NobodyConsumes(run: seq<State>, acts: seq<Act>, k: nat)
    requires IsRun(run, acts) && k < |run| && |run[0].cons| == 0
    ensures run[k].consumed == 0 && |run[k].cons| == 0
  {
    if k == 0 {
    } else {
      NobodyConsumes(run, acts, k - 1);
    }
  }

  /** Until main is through, somebody can always move without waiting for a spurious wakeup. */
  lemma NeverStuck(run: seq<State>, acts: seq<Act>, k: nat)
    requires IsRun(run, acts) && k < |run| && !run[k].main.MEnd?
    ensures exists a :: Enabled(run[k], a) && !a.Spurious?
  {
    RunKeepsInv(run, acts);
    var s := run[k];
    assert Inv(s);
    match s.holder
    case Producer(i) =>
      assert Enabled(s, StepProducer(i, Sleepers(s)));
    case Consumer(j) =>
      assert Enabled(s, StepConsumer(j));
    case Main =>
      assert Enabled(s, StepMain);
    case Nobody =>
      if i :| 0 <= i < |s.prod| && !Finished(s.prod[i]) {
        assert Enabled(s, StepProducer(i, {}));
      } else if s.main.MJoinConsumers? && exists j :: 0 <= j < |s.cons| && !s.cons[j].CExited? {
        var j :| 0 <= j < |s.cons| && !s.cons[j].CExited?;
        assert Enabled(s, StepConsumer(j));
      } else {
        assert Enabled(s, StepMain);
      }
  }

  // ---- bounded work ----

  /** What a consumer still does before it sleeps or goes home, items aside. */
  function ConsRank(c: Cons): nat {
    match c
    case CUnlock(exit) => if exit then 1 else 5
    case CLock => 4
    case CRelock => 4
    case CTest => 3
    case CWait => 2
    case CTake => 2
    case CAsleep => 1
    case CExited => 0
  }

  /** An item's price: the producer's four steps, four for the consumer that takes it, and three for every
      sleeper that its signal may wake. */
  function Price(consumers: nat): nat { 3 * consumers + 8 }

  function ProdRank(p: Prod, consumers: nat): nat {
    if p.left == 0 then 0
    else
      (p.left - 1) * Price(consumers) +
      match p.pc
      case PLock => Price(consumers)
      case PPut => Price(consumers) - 1
      case PSignal => Price(consumers) - 6
      case PUnlock => 1
  }

  function MainRank(m: MState, consumers: nat): nat {
    match m
    case MJoinProducers => 3 * consumers + 6
    case MLock => 3 * consumers + 5
    case MSetDone => 3 * consumers + 4
    case MBroadcast => 3 * consumers + 3
    case MUnlock => 2
    case MJoinConsumers => 1
    case MEnd => 0
  }

  function ProdRankOf(consumers: nat): Prod -> nat { (p: Prod) => ProdRank(p, consumers) }

  function Rank(s: State): nat {
    Total(ProdRankOf(|s.cons|), s.prod) + Total(ConsRank, s.cons) + MainRank(s.main, |s.cons|) + 4 * s.queue
  }

  lemma {:induction false} WakingCosts(cons: seq<Cons>, woken: set<nat>)
    ensures Total(ConsRank, Wake(cons, woken)) <= Total(ConsRank, cons) + 3 * |cons|
  {
    if |cons| == 0 {
    } else {
      var n := |cons| - 1;
      assert Wake(cons, woken) == Wake(cons[..n], woken) + [Wake(cons, woken)[n]];
      assert cons == cons[..n] + [cons[n]];
      WakingCosts(cons[..n], woken);
      TotalAppend(ConsRank, cons[..n], cons[n]);
      TotalAppend(ConsRank, Wake(cons[..n], woken), Wake(cons, woken)[n]);
    }
  }

  lemma ConsumerPays(s: State, a: Act)
    requires Inv(s) && Enabled(s, a) && a.StepConsumer?
    ensures Rank(Apply(s, a)) < Rank(s)
  {
    assert Ordered(s);
    TotalUpdate(ConsRank, s.cons, a.j, Apply(s, a).cons[a.j]);
    hide Inv, Ordered, NoLostWakeup;
  }

  /** What each step of a producer's loop is worth. */
  lemma ProdRankDrops(p: Prod, consumers: nat)
    requires p.left > 0
    ensures ProdRank(p.(pc := PPut), consumers) == ProdRank(p.(pc := PLock), consumers) - 1
    ensures ProdRank(p.(pc := PSignal), consumers) == ProdRank(p.(pc := PPut), consumers) - 5
    ensures ProdRank(p.(pc := PUnlock), consumers) == ProdRank(p.(pc := PSignal), consumers) - 3 * consumers - 1
    ensures ProdRank(Prod(PLock, p.left - 1), consumers) == ProdRank(p.(pc := PUnlock), consumers) - 1
  {
    if p.left > 1 { OneItemLess(p.left, Price(consumers)); }
  }

  lemma ProducerPays(s: State, a: Act)
    requires Inv(s) && Enabled(s, a) && a.StepProducer?
    ensures Rank(Apply(s, a)) < Rank(s)
  {
    hide Inv, Ordered, NoLostWakeup, ProdRank, Sleepers, ConsRank, Wake;
    var p, p', n := s.prod[a.i], Apply(s, a).prod[a.i], |s.cons|;
    ProdRankDrops(p, n);
    assert p == p.(pc := p.pc);
    TotalUpdate(ProdRankOf(n), s.prod, a.i, p');
    WakingCosts(s.cons, a.woken);
  }

  lemma OneItemLess(left: nat, price: nat)
    requires left > 1
    ensures (left - 1) * price == (left - 2) * price + price
  {
  }

  lemma MainPays(s: State, a: Act)
    requires Inv(s) && Enabled(s, a) && a.StepMain?
    ensures Rank(Apply(s, a)) < Rank(s)
  {
    hide Inv, Ordered, NoLostWakeup;
    WakingCosts(s.cons, Sleepers(s));
  }

  lemma SpuriousCosts(s: State, a: Act)
    requires Enabled(s, a) && a.Spurious?
    ensures Rank(Apply(s, a)) == Rank(s) + 3
  {
    TotalUpdate(ConsRank, s.cons, a.j, Apply(s, a).cons[a.j]);
  }

  function SpuriousOnes(acts: seq<Act>, k: nat): nat
    requires k <= |acts|
  {
    if k == 0 then 0 else SpuriousOnes(acts, k - 1) + if acts[k - 1].Spurious? then 1 else 0
  }

  lemma {:induction false} RankPaysForSteps(run: seq<State>, acts: seq<Act>, k: nat)
    requires IsRun(run, acts) && k <= |acts|
    ensures SpuriousOnes(acts, k) <= k
    ensures k - SpuriousOnes(acts, k) + Rank(run[k]) <= Rank(run[0]) + 3 * SpuriousOnes(acts, k)
  {
    hide Inv, Init, Apply, Enabled, Rank;
    if k == 0 {
    } else {
      RankPaysForSteps(run, acts, k - 1);
      RunKeepsInv(run, acts);
      var s, a := run[k - 1], acts[k - 1];
      match a
      case StepProducer(_, _) => ProducerPays(s, a);
      case StepConsumer(_) => ConsumerPays(s, a);
      case StepMain => MainPays(s, a);
      case Spurious(_) => SpuriousCosts(s, a);
    }
  }

  lemma {:induction false} ProducersAtStart(prod: seq<Prod>, consumers: nat)
    requires forall i :: 0 <= i < |prod| ==> prod[i].pc.PLock?
    ensures Total(ProdRankOf(consumers), prod) == Total(ToCome, prod) * Price(consumers)
  {
    if |prod| == 0 {
    } else {
      var p, rest := prod[0], Total(ToCome, prod[1..]);
      assert forall i :: 0 <= i < |prod[1..]| ==> prod[1..][i] == prod[i + 1];
      ProducersAtStart(prod[1..], consumers);
      if p.left > 0 { OneItemLess(p.left + 1, Price(consumers)); }
      assert (p.left + rest) * Price(consumers) == p.left * Price(consumers) + rest * Price(consumers);
    }
  }

  /** The test ends: the steps of all threads, spurious wakeups aside, are at most 3n + 8 for each planned item,
      n being the number of consumers, 7n + 6 for going home, and three for each spurious wakeup. */
  lemma WorkIsBounded(run: seq<State>, acts: seq<Act>, k: nat)
    requires IsRun(run, acts) && k <= |acts|
    ensures var n, spurious := |run[0].cons|, SpuriousOnes(acts, k);
      k - spurious <= Planned(run[0]) * Price(n) + 7 * n + 6 + 3 * spurious
  {
    RankPaysForSteps(run, acts, k);
    ProducersAtStart(run[0].prod, |run[0].cons|);
    TotalConstant(ConsRank, run[0].cons, 4);
  }
}
