/** mulle_thread_once_call_recursive and mulle_thread_once_do_recursive in the shape of the source, with
    init functions that write and make further once calls, running on the machine of module
    OnceRecursive under every schedule. */
module OnceRecursiveCode {
  import opened Words
  import opened ThreadIds
  import opened Scheduling
  import O = Once
  import opened OnceRecursive

  datatype Slot = Slot(others: seq<Act>, i: nat)

  /** How the statement of a macro is left. */
  datatype Exit = Normal | Continue | Break

  /** What an init function, or the statement of a macro, does. */
  datatype Item = Store(v: int) | CallOnce(site: Site, init: seq<Item>, exit: Exit)

  predicate OnStack(inits: seq<Site>, f: nat) {
    exists k :: 0 <= k < |inits| && inits[k].flag == f
  }

  /** An init running on top of `inits` calls higher ranks, or flags on the stack already. */
  predicate WellRanked(rank: seq<nat>, inits: seq<Site>, init: seq<Item>)
    decreases init, 0
  {
    forall k :: 0 <= k < |init| && init[k].CallOnce? ==> MayCall(rank, inits, init[k].site, init[k].init)
  }

  predicate MayCall(rank: seq<nat>, inits: seq<Site>, site: Site, init: seq<Item>)
    decreases init, 1
  {
    && site.flag < |rank|
    && (OnStack(inits, site.flag) || (Climbs(rank, inits, site.flag) && WellRanked(rank, inits + [site], init)))
  }

  predicate Climbs(rank: seq<nat>, inits: seq<Site>, f: nat) {
    && f < |rank|
    && (inits == [] || (inits[|inits| - 1].flag < |rank| && rank[inits[|inits| - 1].flag] < rank[f]))
  }

  /** Slots of the schedule enough for a call, and for an init: one for each access. */
  function Slots(init: seq<Item>): nat
    decreases init, 1
  {
    5 + SlotsOf(init)
  }

  function SlotsOf(init: seq<Item>): nat
    decreases init, 0
  {
    if |init| == 0 then 0
    else
      var last := init[|init| - 1];
      SlotsOf(init[..|init| - 1]) + if last.Store? then 1 else Slots(last.init)
  }

  lemma {:induction false} SlotsGrow(init: seq<Item>, k: nat)
    requires k < |init|
    ensures SlotsOf(init[..k]) + (if init[k].Store? then 1
            else Slots(init[k].init)) == SlotsOf(init[..k + 1]) <= SlotsOf(init)
    decreases |init|
  {
    assert init[..k + 1][..k] == init[..k];
    if k + 1 == |init| {
      assert init[..k + 1] == init;
    } else {
      SlotsGrow(init[..|init| - 1], k);
      assert init[..|init| - 1][..k + 1] == init[..k + 1] && init[..|init| - 1][..k] == init[..k];
    }
  }

  /** In one of the states of the run from `past` on, t spins. */
  ghost predicate HasSpun(run: seq<State>, t: nat, past: nat) {
    exists k :: past <= k < |run| && SpinsIn(run[k], t)
  }

  predicate SpinsIn(s: State, t: nat) {
    t < |s.thr| && s.thr[t].call.At? && s.thr[t].call.pc.Spin?
  }

  lemma StillSpun(run: seq<State>, run': seq<State>, t: nat, past: nat)
    requires run <= run' && HasSpun(run, t, past)
    ensures HasSpun(run', t, past)
  {
    var k :| past <= k < |run| && SpinsIn(run[k], t);
    assert SpinsIn(run'[k], t);
  }

  /** The flag is done and t has seen everything init wrote. */
  predicate SettledIn(s: State, t: nat, f: nat) {
    && t < |s.thr| && f < |s.flags| == |s.thr[t].view|
    && |s.flags[f].word| == 3 && s.thr[t].view[f].d == |s.flags[f].data| - 1
  }

  lemma StoreEffect(s: State, a: Act, inits: seq<Site>, site: Site)
    requires Inv(s) && Shaped(s, a.t) && a.c.Write? && s.thr[a.t].call.None? && s.thr[a.t].inits == inits + [site]
    ensures Enabled(s, a) && site.flag < |s.flags| == |Apply(s, a).flags| && |Apply(s, a).thr| == |s.thr|
    ensures Apply(s, a).thr[a.t].call.None? && Apply(s, a).thr[a.t].inits == inits + [site]
    ensures Apply(s, a).flags[site.flag].data == s.flags[site.flag].data + [a.c.v]
    ensures forall k :: 0 <= k < |inits| ==>
      inits[k].flag < |s.flags| && Apply(s, a).flags[inits[k].flag].data == s.flags[inits[k].flag].data
  {
    FlagBounds(s, a.t);
    hide Inv, Running;
    var th := s.thr[a.t];
    assert th.inits[|inits|] == site;
    forall k | 0 <= k < |inits| ensures inits[k].flag < |s.flags| && inits[k].flag != site.flag {
      assert th.inits[k] == inits[k];
    }
  }

  lemma OwnsNow(th: Thread, f: nat)
    requires CallAt(th, f) && th.call.pc in {WriteTid, ClearTid, Barrier, Publish}
    ensures Owns(th, f)
  {
  }

  /** Where a compare-and-swap takes the thread. */
  lemma CasLands(s: State, t: nat, site: Site, pc: PC, i: nat)
    requires Shaped(s, t) && s.thr[t].call == At(site, pc) && (pc.Cas? || pc.Publish? || pc.WaiterCas?)
    requires MayCas(s, t, site.flag, if pc.Cas? then O.DATA else O.BUSY, i)
    ensures Enabled(s, Act(t, Go(i))) && |Apply(s, Act(t, Go(i))).thr| == |s.thr|
    ensures Apply(s, Act(t, Go(i))).thr[t].inits == s.thr[t].inits
    ensures var actual := s.flags[site.flag].word[i].value;
      Apply(s, Act(t, Go(i))).thr[t].call ==
        At(site, if !pc.Cas? || actual == O.DONE then Returned(Complete)
                 else if actual == O.DATA then WriteTid else Spin)
  {
    hide Running;
  }

  /** The newest message may always be read. */
  lemma InBounds(s: State, t: nat, f: nat)
    requires Inv(s) && t < |s.thr| && f < |s.flags|
    ensures Shaped(s, t) && |s.flags[f].word| > 0 && |s.flags[f].tid| > 0
    ensures s.thr[t].view[f].w < |s.flags[f].word| && s.thr[t].view[f].t < |s.flags[f].tid|
  {
    InvFacts(s, t, f);
  }

  lemma UnwonAtCas(s: State, t: nat, f: nat, i: nat)
    requires Inv(s) && Shaped(s, t) && f < |s.flags| && MayCas(s, t, f, O.DATA, i) && s.flags[f].word[i].value == O.DATA
    ensures |s.flags[f].word| == 1
  {
    InvFacts(s, t, f);
  }

  /** A read of `_thread_id`, be it stale, shows the thread its own id exactly for the flags on its stack. */
  lemma TidShows(s: State, t: nat, f: nat, i: nat)
    requires Inv(s) && Shaped(s, t) && f < |s.flags| && MayReadTid(s, t, f, i) && CallAt(s.thr[t], f)
    requires s.thr[t].call.pc.ReadTid?
    ensures s.flags[f].tid[i] == Id(s.ids, t) <==> OnStack(s.thr[t].inits, f)
  {
    InvFacts(s, t, f);
    hide Inv, GoodStack, FlagInv;
  }

  lemma StackRuns(th: Thread)
    ensures forall k :: 0 <= k < |th.inits| ==> Owns(th, th.inits[k].flag)
  {
  }

  lemma StepKeepsSettled(s: State, a: Act, t: nat, f: nat)
    requires Inv(s) && Enabled(s, a) && SettledIn(s, t, f)
    ensures SettledIn(Apply(s, a), t, f)
  {
    StepKeepsInv(s, a);
    StepEffect(s, a);
    StepPastEntry(s, a, f);
    DataInRange(Apply(s, a), t, f);
    hide Apply, Enabled, Inv, Owns, Named, PastEntry, Running;
  }

  /** The data of a flag that t owns are not written by others. */
  lemma OthersLeaveOwned(s: State, a: Act, t: nat, f: nat)
    requires Inv(s) && Enabled(s, a) && t < |s.thr| && t != a.t && f < |s.flags| && Owns(s.thr[t], f)
    ensures f < |Apply(s, a).flags| && Apply(s, a).flags[f].data == s.flags[f].data
  {
    hide Apply, Enabled, Inv, Running;
    StepEffect(s, a);
    InvFacts(s, a.t, f);
    InvFacts(s, t, f);
  }

  /** Nobody writes data of a flag that nobody has won. */
  lemma UnwonStays(s: State, a: Act, f: nat)
    requires Inv(s) && Enabled(s, a) && f < |s.flags|
    ensures f < |Apply(s, a).flags|
    ensures |Apply(s, a).flags[f].word| == 1 ==>
      |s.flags[f].word| == 1 && Apply(s, a).flags[f].data == s.flags[f].data
  {
    hide Apply, Enabled, Inv, Running;
    StepEffect(s, a);
    InvFacts(s, a.t, f);
  }

  /** Only a write writes. */
  lemma OwnWrites(s: State, a: Act, f: nat)
    requires Enabled(s, a) && f < |s.flags| && !a.c.Write?
    ensures f < |Apply(s, a).flags| && Apply(s, a).flags[f].data == s.flags[f].data
  {
    hide Running;
  }

  /** What an init itself stores. */
  function Stores(init: seq<Item>): seq<int> {
    if |init| == 0 then []
    else Stores(init[..|init| - 1]) + if init[|init| - 1].Store? then [init[|init| - 1].v] else []
  }

  /** The laws that make Stores what it is: the values of the stores, in their order, and nothing else. */
  lemma StoresLaws(init: seq<Item>, item: Item)
    ensures Stores([]) == []
    ensures Stores(init + [item]) == if item.Store? then Stores(init) + [item.v] else Stores(init)
  {
    assert (init + [item])[..|init|] == init;
  }

  // ---- what a thread does, as its client sees it ----

  /** Calls, writes and ends of init, as opposed to the accesses that the once functions make. */
  predicate IsClients(c: Choice) {
    c.Enter? || c.Write? || c.EndInit?
  }

  /** What t has called, written and ended, in order. */
  function ClientActs(acts: seq<Act>, t: nat): seq<Choice> {
    if |acts| == 0 then []
    else
      var last := acts[|acts| - 1];
      ClientActs(acts[..|acts| - 1], t) + if last.t == t && IsClients(last.c) then [last.c] else []
  }

  lemma ClientActsAppend(acts: seq<Act>, a: Act, t: nat)
    ensures ClientActs(acts + [a], t) == ClientActs(acts, t) + if a.t == t && IsClients(a.c) then [a.c] else []
  {
    assert (acts + [a])[..|acts|] == acts;
  }

  /** The trace of a call: the call alone if init is run by another thread or is running already, or the
      call, all that init does, and its end. */
  predicate CallTrace(site: Site, init: seq<Item>, tr: seq<Choice>)
    decreases init, 1
  {
    |tr| > 0 && tr[0] == Enter(site) && (|tr| == 1 || InitTrace(init, tr[1..]))
  }

  predicate InitTrace(init: seq<Item>, tr: seq<Choice>)
    decreases init, 0, 1
  {
    |tr| > 0 && tr[|tr| - 1] == Choice.EndInit && BodyTrace(init, tr[..|tr| - 1])
  }

  /** The trace of an init: item after item, each completely. */
  predicate BodyTrace(init: seq<Item>, tr: seq<Choice>)
    decreases init, 0, 0
  {
    if |init| == 0 then tr == []
    else
      var last := init[|init| - 1];
      exists i ::
        && 0 <= i <= |tr| && BodyTrace(init[..|init| - 1], tr[..i])
        && if last.Store? then tr[i..] == [Write(last.v)] else CallTrace(last.site, last.init, tr[i..])
  }

  predicate ItemTrace(item: Item, tr: seq<Choice>) {
    if item.Store? then tr == [Write(item.v)] else CallTrace(item.site, item.init, tr)
  }

  lemma BodyTraceAppend(init: seq<Item>, k: nat, body: seq<Choice>, tr: seq<Choice>)
    requires k < |init| && BodyTrace(init[..k], body) && ItemTrace(init[k], tr)
    ensures BodyTrace(init[..k + 1], body + tr)
  {
    assert init[..k + 1][..k] == init[..k];
    assert (body + tr)[..|body|] == body && (body + tr)[|body|..] == tr;
  }

  /** The laws that make the traces what they are: nothing for no items; item after item; and a call alone, or
      a call, init and its end. */
  lemma BodyTraceLaws(init: seq<Item>, item: Item, tr: seq<Choice>)
    ensures BodyTrace([], tr) <==> tr == []
    ensures BodyTrace(init + [item], tr) <==>
      exists i :: 0 <= i <= |tr| && BodyTrace(init, tr[..i]) && ItemTrace(item, tr[i..])
  {
    assert (init + [item])[..|init|] == init && (init + [item])[|init|] == item;
    hide CallTrace;
  }

  lemma InitTraceLaw(init: seq<Item>, tr: seq<Choice>)
    ensures InitTrace(init, tr) <==> exists body :: BodyTrace(init, body) && tr == body + [Choice.EndInit]
  {
    if InitTrace(init, tr) {
      assert tr == tr[..|tr| - 1] + [Choice.EndInit];
    }
    if body :| BodyTrace(init, body) && tr == body + [Choice.EndInit] {
      assert tr[..|tr| - 1] == body;
    }
  }

  lemma CallTraceLaws(site: Site, init: seq<Item>, tr: seq<Choice>)
    ensures CallTrace(site, init, tr) <==>
      tr == [Enter(site)] || exists body :: BodyTrace(init, body) && tr == [Enter(site)] + body + [Choice.EndInit]
  {
    if |tr| > 0 {
      hide BodyTrace, InitTrace;
      InitTraceLaw(init, tr[1..]);
      assert tr == [tr[0]] + tr[1..];
      if body :| BodyTrace(init, body) && tr[1..] == body + [Choice.EndInit] {
        assert [tr[0]] + tr[1..] == [tr[0]] + body + [Choice.EndInit];
      }
      if body :| BodyTrace(init, body) && tr == [Enter(site)] + body + [Choice.EndInit] {
        assert tr[1..] == body + [Choice.EndInit];
      }
    }
  }

  /** Between two moments of a run t has done what this init does, and ended it. */
  ghost predicate InitPlayed(before: seq<Act>, now: seq<Act>, t: nat, init: seq<Item>) {
    exists tr :: ClientActs(now, t) == ClientActs(before, t) + tr && InitTrace(init, tr)
  }

  lemma InitPlayedQuietly(acts0: seq<Act>, acts1: seq<Act>, acts2: seq<Act>, acts3: seq<Act>, t: nat, init: seq<Item>)
    requires ClientActs(acts1, t) == ClientActs(acts0, t) && ClientActs(acts3, t) == ClientActs(acts2, t)
    requires InitPlayed(acts1, acts2, t, init)
    ensures InitPlayed(acts0, acts3, t, init)
  {
  }

  /** Between two moments of a run t has made this call, with everything that belongs to it. */
  ghost predicate Played(before: seq<Act>, now: seq<Act>, t: nat, site: Site, init: seq<Item>) {
    exists tr :: ClientActs(now, t) == ClientActs(before, t) + tr && CallTrace(site, init, tr)
  }

  /** And it was t that ran init: the call was not all it did. */
  predicate Won(before: seq<Act>, now: seq<Act>, t: nat) {
    |ClientActs(now, t)| > |ClientActs(before, t)| + 1
  }

  /** Since action `past`, t has called the once function or macro. */
  ghost predicate Called(acts: seq<Act>, t: nat, site: Site, past: nat) {
    exists k :: past <= k < |acts| && acts[k] == Act(t, Enter(site))
  }

  lemma StillCalled(acts: seq<Act>, acts': seq<Act>, t: nat, site: Site, past: nat)
    requires acts <= acts' && Called(acts, t, site, past)
    ensures Called(acts', t, site, past)
  {
    var k :| past <= k < |acts| && acts[k] == Act(t, Enter(site));
    assert acts'[k] == Act(t, Enter(site));
  }

  lemma CalledSince(acts: seq<Act>, t: nat, site: Site, past: nat, earlier: nat)
    requires Called(acts, t, site, past) && earlier <= past
    ensures Called(acts, t, site, earlier)
  {
  }

  /** The once call that the slots are counted for: the ranks of the flags, where in the run it began, and
      how many slots there were. */
  datatype Job = Job(rank: seq<nat>, past: nat, slots: nat)

  class Memory {
    var s: State
    var schedule: seq<Slot>
    ghost var run: seq<State>
    ghost var acts: seq<Act>

    ghost predicate Valid()
      reads this
    {
      IsRun(run, acts) && run[|acts|] == s
    }

    constructor (start: State, schedule: seq<Slot>)
      requires Init(start)
      ensures Valid() && s == start && this.schedule == schedule && acts == []
    {
      s, run, acts := start, [start], [];
      this.schedule := schedule;
    }

    /** At most `used` slots have gone into the job, unless t had to spin. */
    ghost predicate Within(t: nat, job: Job, used: nat)
      reads this
    {
      job.past < |run| && (|schedule| + used >= job.slots || HasSpun(run, t, job.past))
    }

    /** The schedule ended after at most `used` slots of the job, unless t had to spin. */
    ghost predicate GivenUp(t: nat, job: Job, used: nat)
      reads this
    {
      schedule == [] && Within(t, job, used)
    }

    /** Thread t stands in the once calls `inits`, at the point `call` of one more. */
    ghost predicate Standing(t: nat, inits: seq<Site>, call: Call, job: Job, used: nat)
      reads this
    {
      && Valid() && t < |s.thr| && s.thr[t].inits == inits && s.thr[t].call == call && s.rank == job.rank
      && |s.thr[t].view| == |s.flags| == |job.rank| && Within(t, job, used)
    }

    /** The run goes on from where it was; the data of the flags in `inits` are as they were, and what t had
        seen all of it still has. */
    twostate predicate Keeps(t: nat, inits: seq<Site>)
      reads this
    {
      && old(acts) <= acts && old(run) <= run && |old(s.flags)| == |s.flags|
      && (forall k :: 0 <= k < |inits| && inits[k].flag < |s.flags| ==>
            s.flags[inits[k].flag].data == old(s.flags)[inits[k].flag].data)
      && (forall f :: 0 <= f < |s.flags| && |s.flags[f].word| == 1 ==>
            |old(s.flags)[f].word| == 1 && s.flags[f].data == old(s.flags)[f].data)
      && (forall f :: SettledIn(old(s), t, f) ==> SettledIn(s, t, f))
    }

    /** t has done nothing its client would see. */
    twostate predicate Quiet(t: nat)
      reads this
    {
      ClientActs(acts, t) == ClientActs(old(acts), t)
    }

    /** Init was run by t: to the data of the flag, init's stores were added, in their order and nothing else,
        and all of init's calls were made. */
    twostate predicate DidInit(t: nat, inits: seq<Site>, site: Site, init: seq<Item>)
      reads this
    {
      && site.flag < |old(s.flags)| == |s.flags|
      && s.flags[site.flag].data == old(s.flags)[site.flag].data + Stores(init)
      && AllCalled(acts, s, t, inits + [site], init, |old(acts)|)
    }

    /** If t ran init in the course of a call, then nobody had won the flag before. */
    twostate predicate OnlyWinnerRuns(t: nat, inits: seq<Site>, site: Site, init: seq<Item>)
      reads this
    {
      Won(old(acts), acts, t) ==>
        site.flag < |old(s.flags)| && |old(s.flags)[site.flag].word| == 1 && DidInit(t, inits, site, init)
    }

    lemma Facts(t: nat)
      requires Valid() && t < |s.thr|
      ensures Inv(s) && Shaped(s, t) && GoodStack(s.rank, s.thr[t])
    {
      RunKeepsInv(run, acts);
      FlagBounds(s, t);
    }

    lemma AllInv()
      requires Valid()
      ensures Inv(s)
    {
      RunKeepsInv(run, acts);
    }

    method Do(a: Act)
      requires Valid() && Enabled(s, a)
      modifies this`s, this`run, this`acts
      ensures Valid() && s == Apply(old(s), a) && acts == old(acts) + [a] && run == old(run) + [s] && Inv(old(s))
      ensures |s.thr| == |old(s.thr)| && |s.flags| == |old(s.flags)| && s.rank == old(s.rank)
      ensures forall u :: 0 <= u < |s.thr| && u != a.t ==> s.thr[u] == old(s.thr[u])
      ensures |s.thr[a.t].view| == |old(s.thr[a.t]).view|
      ensures forall t, f :: SettledIn(old(s), t, f) ==> SettledIn(s, t, f)
      ensures forall t: nat, f: nat :: t < |s.thr| && t != a.t && f < |s.flags| && Owns(old(s).thr[t], f) ==>
        s.flags[f].data == old(s).flags[f].data
      ensures forall f :: 0 <= f < |s.flags| && |s.flags[f].word| == 1 ==>
        |old(s).flags[f].word| == 1 && s.flags[f].data == old(s).flags[f].data
      ensures forall t: nat ::
        ClientActs(acts, t) == ClientActs(old(acts), t) + if a.t == t && IsClients(a.c) then [a.c] else []
    {
      hide Inv, Apply, Enabled, SettledIn, Owns, ClientActs;
      assert Inv(s) by { AllInv(); }
      StepEffect(s, a);
      forall t, f | SettledIn(s, t, f) ensures SettledIn(Apply(s, a), t, f) {
        StepKeepsSettled(s, a, t, f);
      }
      forall f | 0 <= f < |s.flags| && |Apply(s, a).flags[f].word| == 1
        ensures |s.flags[f].word| == 1 && Apply(s, a).flags[f].data == s.flags[f].data
      {
        UnwonStays(s, a, f);
      }
      forall t: nat ensures
        ClientActs(acts + [a], t) == ClientActs(acts, t) + if a.t == t && IsClients(a.c) then [a.c] else []
      {
        ClientActsAppend(acts, a, t);
      }
      forall t: nat, f: nat | t < |s.thr| && t != a.t && f < |s.flags| && Owns(s.thr[t], f)
        ensures Apply(s, a).flags[f].data == s.flags[f].data
      {
        OthersLeaveOwned(s, a, t, f);
      }
      ExtendedIsRun(run, acts, a);
      s := Apply(s, a);
      run, acts := run + [s], acts + [a];
    }

    /** A step of t's own. */
    method Own(t: nat, a: Act, ghost job: Job, ghost used: nat)
      requires Valid() && Enabled(s, a) && a.t == t && Within(t, job, used)
      modifies this`s, this`run, this`acts
      ensures Valid() && s == Apply(old(s), a) && Inv(old(s)) && Within(t, job, used)
      ensures t < |s.thr| == |old(s.thr)| && |s.flags| == |old(s.flags)| && s.rank == old(s.rank)
      ensures |s.thr[t].view| == |old(s.thr[t]).view|
      ensures acts == old(acts) + [a] && old(run) <= run && (forall f :: SettledIn(old(s), t, f) ==> SettledIn(s, t, f))
      ensures !a.c.Write? ==> forall f :: 0 <= f < |s.flags| ==> s.flags[f].data == old(s).flags[f].data
      ensures forall f :: 0 <= f < |s.flags| && |s.flags[f].word| == 1 ==>
        |old(s).flags[f].word| == 1 && s.flags[f].data == old(s).flags[f].data
      ensures ClientActs(acts, t) == ClientActs(old(acts), t) + if IsClients(a.c) then [a.c] else []
    {
      hide Inv, IsRun, Apply, SettledIn, Running, Owns, ClientActs;
      ghost var before := run;
      forall f | 0 <= f < |s.flags| && !a.c.Write?
        ensures f < |Apply(s, a).flags| && Apply(s, a).flags[f].data == s.flags[f].data
      {
        OwnWrites(s, a, f);
      }
      Do(a);
      if HasSpun(before, t, job.past) { StillSpun(before, run, t, job.past); }
    }

    /** Others go first; then it is t's turn, with a preference for the message to read. */
    method Turn(t: nat, ghost job: Job, ghost used: nat) returns (r: Progress<nat>)
      requires Valid() && t < |s.thr| && Within(t, job, used)
      modifies this
      ensures Valid() && |s.thr| == |old(s.thr)| && |s.flags| == |old(s.flags)| && s.rank == old(s.rank)
      ensures s.thr[t] == old(s.thr[t]) && Keeps(t, s.thr[t].inits) && Quiet(t)
      ensures forall f :: 0 <= f < |s.flags| && Owns(s.thr[t], f) ==> s.flags[f].data == old(s.flags)[f].data
      ensures if r.Preempted? then schedule == old(schedule) == [] && GivenUp(t, job, used)
              else |schedule| == |old(schedule)| - 1 && Within(t, job, used + 1)
    {
      hide Inv, IsRun, Apply, SettledIn, Owns, ClientActs;
      if schedule == [] {
        return Preempted;
      }
      var slot := schedule[0];
      schedule := schedule[1..];
      ghost var before := run;
      for k := 0 to |slot.others|
        invariant Valid() && |s.thr| == |old(s.thr)| && |s.flags| == |old(s.flags)| && s.rank == old(s.rank)
        invariant s.thr[t] == old(s.thr[t]) && Keeps(t, s.thr[t].inits) && |schedule| == |old(schedule)| - 1
        invariant Quiet(t) && forall f :: 0 <= f < |s.flags| && Owns(s.thr[t], f) ==>
                                s.flags[f].data == old(s.flags)[f].data
      {
        if slot.others[k].t != t && Enabled(s, slot.others[k]) {
          StackRuns(s.thr[t]);
          Do(slot.others[k]);
        }
      }
      if HasSpun(before, t, job.past) { StillSpun(before, run, t, job.past); }
      return Went(slot.i);
    }

    method Start(t: nat, ghost inits: seq<Site>, site: Site, ghost init: seq<Item>, ghost job: Job, ghost used: nat)
      requires Standing(t, inits, None, job, used) && MayCall(job.rank, inits, site, init)
      modifies this`s, this`run, this`acts
      ensures Keeps(t, inits) && Standing(t, inits, At(site, ReadTid), job, used) && Called(acts, t, site, |old(acts)|)
      ensures ClientActs(acts, t) == ClientActs(old(acts), t) + [Enter(site)]
    {
      Facts(t);
      Own(t, Act(t, Enter(site)), job, used);
      assert acts[|acts| - 1] == Act(t, Enter(site));
    }

    method ReadThreadId(t: nat, ghost inits: seq<Site>, site: Site, ghost job: Job, ghost used: nat)
      returns (r: Progress<Word>)
      requires Standing(t, inits, At(site, ReadTid), job, used) && site.flag < |job.rank|
      modifies this
      ensures Valid() && Keeps(t, inits) && Quiet(t)
      ensures r.Went? ==> t < |s.thr| == |s.ids| && (r.value == Id(s.ids, t) <==> OnStack(inits, site.flag))
      ensures r.Went? ==>
        Standing(t, inits, At(site, if r.value == Id(s.ids, t) then Returned(Nested) else Cas), job, used + 1)
      ensures r.Preempted? ==> old(schedule) == [] && GivenUp(t, job, used)
    {
      hide SettledIn, Running, GoodStack, FlagInv, Owns, Named, Knows, ClientActs, OnStack;
      var i :- Turn(t, job, used);
      Facts(t);
      InBounds(s, t, site.flag);
      if !MayReadTid(s, t, site.flag, i) {
        i := |s.flags[site.flag].tid| - 1;
      }
      var value := s.flags[site.flag].tid[i];
      TidShows(s, t, site.flag, i);
      Own(t, Act(t, Go(i)), job, used + 1);
      return Went(value);
    }

    method CompareAndSwap(t: nat, value: int, expected: int, ghost inits: seq<Site>, site: Site, pc: PC,
                          ghost job: Job, ghost used: nat)
      returns (r: Progress<int>)
      requires Standing(t, inits, At(site, pc), job, used) && site.flag < |job.rank|
      requires (pc.Cas? && value == O.BUSY && expected == O.DATA)
            || ((pc.Publish? || pc.WaiterCas?) && value == O.DONE && expected == O.BUSY)
      modifies this
      ensures Valid() && Keeps(t, inits) && Quiet(t)
      ensures r.Went? ==>
        Standing(t, inits, At(site, if !pc.Cas? || r.value == O.DONE then Returned(Complete)
                                    else if r.value == O.DATA then WriteTid else Spin), job, used + 1)
      ensures r.Preempted? ==> GivenUp(t, job, used)
      ensures r.Went? && pc.Publish? ==> s.flags[site.flag].data == old(s.flags)[site.flag].data
      ensures r.Went? && pc.Cas? && r.value == O.DATA ==>
        |old(s.flags)[site.flag].word| == 1 && s.flags[site.flag].data == old(s.flags)[site.flag].data
    {
      hide SettledIn, Running, GoodStack, FlagInv, Owns, Named, Knows, ClientActs, OnStack, Apply, Enabled, Inv;
      if pc.Publish? { OwnsNow(s.thr[t], site.flag); }
      var i :- Turn(t, job, used);
      Facts(t);
      InBounds(s, t, site.flag);
      if !MayCas(s, t, site.flag, expected, i) {
        i := |s.flags[site.flag].word| - 1;
      }
      var actual := s.flags[site.flag].word[i].value;
      if pc.Cas? && actual == O.DATA { UnwonAtCas(s, t, site.flag, i); }
      CasLands(s, t, site, pc, i);
      Own(t, Act(t, Go(i)), job, used + 1);
      return Went(actual);
    }

    /** A spinning read; once t spins, slots are not counted any more. */
    method ReadState(t: nat, ghost inits: seq<Site>, site: Site, ghost job: Job, ghost used: nat)
      returns (r: Progress<int>)
      requires Standing(t, inits, At(site, Spin), job, used) && site.flag < |job.rank|
      modifies this
      ensures Valid() && Keeps(t, inits) && Quiet(t)
      ensures r.Went? ==> |schedule| < |old(schedule)|
      ensures r.Went? ==> Standing(t, inits, At(site, if r.value == O.DONE then SpinBarrier else Spin), job, used)
      ensures r.Preempted? ==> GivenUp(t, job, used)
    {
      hide SettledIn, Running, GoodStack, FlagInv, Owns, Named, Knows, ClientActs, OnStack;
      SpinsNow(t, job, used);
      var i :- Turn(t, job, used);
      Facts(t);
      InBounds(s, t, site.flag);
      if !MayReadWord(s, t, site.flag, i) {
        i := |s.flags[site.flag].word| - 1;
      }
      var value := s.flags[site.flag].word[i].value;
      SpinsNow(t, job, used + 1);
      Own(t, Act(t, Go(i)), job, used);
      return Went(value);
    }

    lemma SpinsNow(t: nat, job: Job, used: nat)
      requires Valid() && SpinsIn(s, t) && Within(t, job, used)
      ensures forall n :: Within(t, job, n)
    {
      assert SpinsIn(run[|run| - 1], t);
    }

    /** Stores the caller's id, and init is entered. */
    method WriteOwnId(t: nat, ghost inits: seq<Site>, site: Site, ghost job: Job, ghost used: nat)
      returns (r: Progress<()>)
      requires Standing(t, inits, At(site, WriteTid), job, used)
      modifies this
      ensures Valid() && Keeps(t, inits) && Quiet(t)
      ensures r.Went? ==> Standing(t, inits + [site], None, job, used + 1)
      ensures r.Preempted? ==> GivenUp(t, job, used)
      ensures r.Went? && site.flag < |s.flags| ==> s.flags[site.flag].data == old(s.flags)[site.flag].data
    {
      hide SettledIn, Running, GoodStack, FlagInv, Owns, Named, Knows, ClientActs, OnStack;
      OwnsNow(s.thr[t], site.flag);
      var _ :- Turn(t, job, used);
      Facts(t);
      Own(t, Act(t, Go(0)), job, used + 1);
      return Went(());
    }

    /** NULL to `_thread_id`, by the owner or by a waiter of the macro. */
    method WriteNull(t: nat, ghost inits: seq<Site>, site: Site, pc: PC, ghost job: Job, ghost used: nat)
      returns (r: Progress<()>)
      requires Standing(t, inits, At(site, pc), job, used) && (pc.ClearTid? || pc.WaiterClear?)
      modifies this
      ensures Valid() && Keeps(t, inits) && Quiet(t)
      ensures r.Went? ==> Standing(t, inits, At(site, if pc.ClearTid? then Barrier else WaiterBarrier), job, used + 1)
      ensures r.Preempted? ==> GivenUp(t, job, used)
      ensures r.Went? && pc.ClearTid? && site.flag < |s.flags| ==>
        s.flags[site.flag].data == old(s.flags)[site.flag].data
    {
      hide SettledIn, Running, GoodStack, FlagInv, Owns, Named, Knows, ClientActs, OnStack;
      if pc.ClearTid? { OwnsNow(s.thr[t], site.flag); }
      var _ :- Turn(t, job, used);
      Facts(t);
      Own(t, Act(t, Go(0)), job, used + 1);
      return Went(());
    }

    /** A write of the running init. */
    method StoreData(t: nat, v: int, ghost inits: seq<Site>, site: Site, ghost job: Job, ghost used: nat)
      returns (r: Progress<()>)
      requires Standing(t, inits + [site], None, job, used) && site.flag < |job.rank|
      modifies this
      ensures Valid() && Keeps(t, inits)
      ensures r.Went? ==> Standing(t, inits + [site], None, job, used + 1)
      ensures r.Went? ==> s.flags[site.flag].data == old(s.flags)[site.flag].data + [v]
      ensures r.Went? ==> ClientActs(acts, t) == ClientActs(old(acts), t) + [Write(v)]
      ensures r.Preempted? ==> GivenUp(t, job, used)
    {
      hide Inv, IsRun, Apply, Enabled, SettledIn, GoodStack, ClientActs, Owns;
      assert (inits + [site])[|inits|] == site && forall k :: 0 <= k < |inits| ==> (inits + [site])[k] == inits[k];
      var _ :- Turn(t, job, used);
      Facts(t);
      StoreEffect(s, Act(t, Write(v)), inits, site);
      Own(t, Act(t, Write(v)), job, used + 1);
      return Went(());
    }

    method EndInit(t: nat, ghost inits: seq<Site>, site: Site, ghost job: Job, ghost used: nat)
      requires Standing(t, inits + [site], None, job, used)
      modifies this`s, this`run, this`acts
      ensures Keeps(t, inits + [site]) && Standing(t, inits, At(site, ClearTid), job, used)
      ensures ClientActs(acts, t) == ClientActs(old(acts), t) + [Choice.EndInit]
    {
      Facts(t);
      Own(t, Act(t, Choice.EndInit), job, used);
      assert (inits + [site])[..|inits|] == inits;
    }

    method Fence(t: nat, ghost inits: seq<Site>, site: Site, pc: PC, ghost job: Job, ghost used: nat)
      requires Standing(t, inits, At(site, pc), job, used) && (pc.Barrier? || pc.SpinBarrier? || pc.WaiterBarrier?)
      modifies this`s, this`run, this`acts
      ensures Keeps(t, inits) && Quiet(t)
      ensures Standing(t, inits, At(site, if pc.Barrier? then Publish else if pc.WaiterBarrier? then WaiterCas
                                          else if site.form.Macro? then WaiterClear else Returned(Complete)), job, used)
      ensures site.flag < |s.flags| ==> s.flags[site.flag].data == old(s.flags)[site.flag].data
    {
      hide SettledIn, Running, GoodStack, FlagInv, Owns, Named, Knows, ClientActs, OnStack;
      Facts(t);
      Own(t, Act(t, Go(0)), job, used);
    }

    /** Back from the call; unless it was a re-entry, with all of init in view. */
    method Finish(t: nat, ghost inits: seq<Site>, site: Site, how: How, ghost job: Job, ghost used: nat)
      requires Standing(t, inits, At(site, Returned(how)), job, used) && site.flag < |job.rank|
      modifies this`s, this`run, this`acts
      ensures Keeps(t, inits) && Quiet(t) && Standing(t, inits, None, job, used)
      ensures how.Complete? ==> Settled(t, site.flag)
      ensures s.flags[site.flag].data == old(s.flags)[site.flag].data
    {
      Facts(t);
      InvFacts(s, t, site.flag);
      Own(t, Act(t, Return), job, used);
    }

    ghost predicate Settled(t: nat, f: nat)
      reads this
    {
      SettledIn(s, t, f)
    }
  }

  /** t has made all calls of the init since action `past`, and of each that was not a re-entry it has seen
      all that the called flag's init wrote. */
  ghost predicate AllCalled(acts: seq<Act>, s: State, t: nat, inits: seq<Site>, init: seq<Item>, past: nat) {
    forall k :: 0 <= k < |init| && init[k].CallOnce? ==>
      Called(acts, t, init[k].site, past) && (OnStack(inits, init[k].site.flag) || SettledIn(s, t, init[k].site.flag))
  }

  lemma OneMoreCalled(acts: seq<Act>, s: State, acts': seq<Act>, s': State, t: nat, inits: seq<Site>, init: seq<Item>,
                      k: nat, past: nat)
    requires k < |init| && AllCalled(acts, s, t, inits, init[..k], past) && acts <= acts' && past <= |acts|
    requires forall f :: SettledIn(s, t, f) ==> SettledIn(s', t, f)
    requires AllCalled(acts', s', t, inits, [init[k]], |acts|)
    ensures AllCalled(acts', s', t, inits, init[..k + 1], past)
  {
    hide Called, OnStack, SettledIn;
    forall j | 0 <= j < k + 1 && init[j].CallOnce? ensures Called(acts', t, init[j].site, past) {
      if j < k {
        assert init[..k][j] == init[j];
        StillCalled(acts, acts', t, init[j].site, past);
      } else {
        assert [init[k]][0] == init[k];
        CalledSince(acts', t, init[j].site, |acts|, past);
      }
    }
    forall j | 0 <= j < k + 1 && init[j].CallOnce?
      ensures OnStack(inits, init[j].site.flag) || SettledIn(s', t, init[j].site.flag)
    {
      assert if j < k then init[..k][j] == init[j] else [init[k]][0] == init[j];
    }
  }

  /** One thing that the init does. */
  method RunItem(m: Memory, t: nat, ghost inits: seq<Site>, site: Site, init: seq<Item>, k: nat, ghost job: Job,
      ghost used: nat)
    returns (r: Progress<()>)
    requires m.Standing(t, inits + [site], None, job, used) && k < |init| && WellRanked(job.rank, inits + [site], init)
    requires site.flag < |job.rank|
    modifies m
    ensures m.Valid() && m.Keeps(t, inits)
    ensures r.Went? ==>
      m.Standing(t, inits + [site], None, job, used + if init[k].Store? then 1 else Slots(init[k].init))
    ensures r.Went? ==>
      m.s.flags[site.flag].data == old(m.s.flags)[site.flag].data + if init[k].Store? then [init[k].v] else []
    ensures r.Went? ==> AllCalled(m.acts, m.s, t, inits + [site], [init[k]], |old(m.acts)|)
    ensures r.Went? ==>
      exists tr :: ClientActs(m.acts, t) == ClientActs(old(m.acts), t) + tr && ItemTrace(init[k], tr)
    ensures r.Preempted? ==> m.GivenUp(t, job, used + if init[k].Store? then 0 else Slots(init[k].init) - 1)
    decreases init, 0, 0
  {
    hide Inv, IsRun, Init, Apply, Enabled, OnStack, Climbs, HasSpun, SettledIn, Called, Memory.Valid, ClientActs,
      CallTrace, Played;
    assert (inits + [site])[|inits|] == site && forall j :: 0 <= j < |inits| ==> (inits + [site])[j] == inits[j];
    match init[k]
    case Store(v) =>
      var _ :- m.StoreData(t, v, inits, site, job, used);
      assert ItemTrace(init[k], [Write(v)]);
      return Went(());
    case CallOnce(nested, code, exit) =>
      if nested.form.Function? {
        var _ :- OnceCallRecursive(m, t, inits + [site], nested, code, job, used);
      } else {
        var _ :- OnceDoRecursive(m, t, inits + [site], nested, code, exit, job, used);
      }
      assert exists tr :: ClientActs(m.acts, t) == ClientActs(old(m.acts), t) + tr && ItemTrace(init[k], tr) by {
        CallIsItem(old(m.acts), m.acts, t, init[k]);
      }
      return Went(());
  }

  /** How far t has got in its init: what it has stored, called and done after the first k items. */
  ghost predicate GotTo(m: Memory, t: nat, inits: seq<Site>, site: Site, init: seq<Item>, k: nat,
                        acts0: seq<Act>, data0: seq<int>)
    reads m
  {
    && k <= |init| && site.flag < |m.s.flags| && acts0 <= m.acts
    && m.s.flags[site.flag].data == data0 + Stores(init[..k])
    && AllCalled(m.acts, m.s, t, inits + [site], init[..k], |acts0|)
    && exists body :: ClientActs(m.acts, t) == ClientActs(acts0, t) + body && BodyTrace(init[..k], body)
  }

  lemma GotNowhere(m: Memory, t: nat, inits: seq<Site>, site: Site, init: seq<Item>)
    requires site.flag < |m.s.flags|
    ensures GotTo(m, t, inits, site, init, 0, m.acts, m.s.flags[site.flag].data)
  {
    NothingPlayed(init);
    assert ClientActs(m.acts, t) == ClientActs(m.acts, t) + [];
  }

  /** The next item. */
  method RunNext(m: Memory, t: nat, ghost inits: seq<Site>, site: Site, init: seq<Item>, k: nat, ghost job: Job,
                 ghost used: nat, ghost acts0: seq<Act>, ghost data0: seq<int>)
    returns (r: Progress<()>)
    requires k < |init| && m.Standing(t, inits + [site], None, job, used + SlotsOf(init[..k]))
    requires site.flag < |job.rank| && WellRanked(job.rank, inits + [site], init)
    requires GotTo(m, t, inits, site, init, k, acts0, data0)
    modifies m
    ensures m.Valid() && m.Keeps(t, inits)
    ensures r.Went? ==> m.Standing(t, inits + [site], None, job, used + SlotsOf(init[..k + 1]))
    ensures r.Went? ==> GotTo(m, t, inits, site, init, k + 1, acts0, data0)
    ensures r.Preempted? ==> m.GivenUp(t, job, used + SlotsOf(init))
    decreases init, 0, 1
  {
    hide Inv, IsRun, Init, Apply, Enabled, OnStack, Climbs, HasSpun, SettledIn, Called, AllCalled, WellRanked,
      ClientActs,
      BodyTrace, ItemTrace;
    SlotsGrow(init, k);
    assert init[..k + 1][..k] == init[..k];
    ghost var acts, s := m.acts, m.s;
    ghost var body :| ClientActs(m.acts, t) == ClientActs(acts0, t) + body && BodyTrace(init[..k], body);
    var _ :- RunItem(m, t, inits, site, init, k, job, used + SlotsOf(init[..k]));
    OneMoreCalled(acts, s, m.acts, m.s, t, inits + [site], init, k, |acts0|);
    ghost var tr :| ClientActs(m.acts, t) == ClientActs(acts, t) + tr && ItemTrace(init[k], tr);
    BodyTraceAppend(init, k, body, tr);
    assert ClientActs(m.acts, t) == ClientActs(acts0, t) + (body + tr);
    return Went(());
  }

  /** The init function; in the middle of it the thread may be called back into any flag it is in. It makes
      its stores, and nobody else's come between, and all its calls. */
  method RunInit(m: Memory, t: nat, ghost inits: seq<Site>, site: Site, init: seq<Item>, ghost job: Job,
      ghost used: nat)
    returns (r: Progress<()>)
    requires m.Standing(t, inits + [site], None, job, used) && WellRanked(job.rank, inits + [site], init)
    requires site.flag < |job.rank|
    modifies m
    ensures m.Valid() && m.Keeps(t, inits)
    ensures r.Went? ==> m.Standing(t, inits, At(site, ClearTid), job, used + SlotsOf(init))
    ensures r.Went? ==> m.DidInit(t, inits, site, init)
    ensures r.Went? ==> InitPlayed(old(m.acts), m.acts, t, init)
    ensures r.Preempted? ==> m.GivenUp(t, job, used + SlotsOf(init))
    decreases init, 0, 2
  {
    hide Inv, IsRun, Init, Apply, Enabled, OnStack, Climbs, HasSpun, SettledIn, WellRanked, GotTo, InitPlayed;
    GotNowhere(m, t, inits, site, init);
    for k := 0 to |init|
      invariant m.Standing(t, inits + [site], None, job, used + SlotsOf(init[..k])) && m.Keeps(t, inits)
      invariant GotTo(m, t, inits, site, init, k, old(m.acts), old(m.s).flags[site.flag].data)
    {
      var _ :- RunNext(m, t, inits, site, init, k, job, used, old(m.acts), old(m.s).flags[site.flag].data);
    }
    assert init[..|init|] == init;
    LeaveInit(m, t, inits, site, init, job, used + SlotsOf(init), old(m.acts), old(m.s).flags[site.flag].data);
    return Went(());
  }

  method LeaveInit(m: Memory, t: nat, ghost inits: seq<Site>, site: Site, ghost init: seq<Item>, ghost job: Job,
                   ghost used: nat, ghost acts0: seq<Act>, ghost data0: seq<int>)
    requires m.Standing(t, inits + [site], None, job, used) && site.flag < |job.rank|
    requires GotTo(m, t, inits, site, init, |init|, acts0, data0)
    modifies m`s, m`run, m`acts
    ensures m.Valid() && m.Keeps(t, inits) && m.Standing(t, inits, At(site, ClearTid), job, used)
    ensures acts0 <= m.acts && site.flag < |m.s.flags| && m.s.flags[site.flag].data == data0 + Stores(init)
    ensures AllCalled(m.acts, m.s, t, inits + [site], init, |acts0|) && InitPlayed(acts0, m.acts, t, init)
  {
    hide Inv, IsRun, Init, Apply, Enabled, OnStack, HasSpun, SettledIn, Called, AllCalled, ClientActs, BodyTrace,
      Stores;
    assert init[..|init|] == init;
    assert (inits + [site])[|inits|] == site && forall j :: 0 <= j < |inits| ==> (inits + [site])[j] == inits[j];
    ghost var acts, s := m.acts, m.s;
    ghost var body :| ClientActs(m.acts, t) == ClientActs(acts0, t) + body && BodyTrace(init[..|init|], body);
    m.EndInit(t, inits, site, job, used);
    StillAllCalled(acts, s, m.acts, m.s, t, inits + [site], init, |acts0|);
    InitEnds(init, body);
    assert ClientActs(m.acts, t) == ClientActs(acts0, t) + (body + [Choice.EndInit]);
  }

  lemma NothingPlayed(init: seq<Item>)
    ensures BodyTrace(init[..0], [])
  {
  }

  lemma InitEnds(init: seq<Item>, body: seq<Choice>)
    requires BodyTrace(init, body)
    ensures InitTrace(init, body + [Choice.EndInit])
  {
    assert (body + [Choice.EndInit])[..|body|] == body;
  }

  lemma CallIsItem(before: seq<Act>, now: seq<Act>, t: nat, item: Item)
    requires item.CallOnce? && Played(before, now, t, item.site, item.init)
    ensures exists tr :: ClientActs(now, t) == ClientActs(before, t) + tr && ItemTrace(item, tr)
  {
    var tr :| ClientActs(now, t) == ClientActs(before, t) + tr && CallTrace(item.site, item.init, tr);
    assert ItemTrace(item, tr);
  }

  /** What holds of a part of the run holds of a longer part. */
  lemma AllCalledWidely(acts: seq<Act>, s: State, acts': seq<Act>, s': State, t: nat, inits: seq<Site>, init: seq<Item>,
      past: nat, earlier: nat)
    requires AllCalled(acts, s, t, inits, init, past) && acts <= acts' && earlier <= past
    requires forall f :: SettledIn(s, t, f) ==> SettledIn(s', t, f)
    ensures AllCalled(acts', s', t, inits, init, earlier)
  {
    hide Called, OnStack, SettledIn;
    forall j | 0 <= j < |init| && init[j].CallOnce? ensures Called(acts', t, init[j].site, earlier) {
      StillCalled(acts, acts', t, init[j].site, past);
      CalledSince(acts', t, init[j].site, past, earlier);
    }
  }

  lemma StillAllCalled(acts: seq<Act>, s: State, acts': seq<Act>, s': State, t: nat, inits: seq<Site>,
      init: seq<Item>, past: nat)
    requires AllCalled(acts, s, t, inits, init, past) && acts <= acts'
    requires forall f :: SettledIn(s, t, f) ==> SettledIn(s', t, f)
    ensures AllCalled(acts', s', t, inits, init, past)
  {
    hide Called, OnStack, SettledIn;
    forall j | 0 <= j < |init| && init[j].CallOnce? ensures Called(acts', t, init[j].site, past) {
      StillCalled(acts, acts', t, init[j].site, past);
    }
  }

  /** The spin loop, and the fence behind it. */
  method WaitForDone(m: Memory, t: nat, ghost inits: seq<Site>, site: Site, ghost job: Job, ghost used: nat)
    returns (r: Progress<()>)
    requires m.Standing(t, inits, At(site, Spin), job, used) && site.flag < |job.rank|
    modifies m
    ensures m.Valid() && m.Keeps(t, inits) && m.Quiet(t)
    ensures r.Went? ==>
      m.Standing(t, inits, At(site, if site.form.Macro? then WaiterClear else Returned(Complete)), job, used)
    ensures r.Preempted? ==> m.GivenUp(t, job, used)
  {
    hide Inv, IsRun, Init, Apply, Enabled, HasSpun, SettledIn, ClientActs;
    var state :- m.ReadState(t, inits, site, job, used);
    while state != O.DONE
      invariant m.Standing(t, inits, At(site, if state == O.DONE then SpinBarrier else Spin), job, used)
      invariant m.Keeps(t, inits) && m.Quiet(t)
      decreases |m.schedule|
    {
      state :- m.ReadState(t, inits, site, job, used);
    }
    m.Fence(t, inits, site, SpinBarrier, job, used);
    return Went(());
  }

  /** What the winner of the first compare-and-swap does: its id, init, and the publication. */
  method RunAndPublish(m: Memory, t: nat, ghost inits: seq<Site>, site: Site, init: seq<Item>, ghost job: Job,
      ghost used: nat)
    returns (r: Progress<()>)
    requires m.Standing(t, inits, At(site, WriteTid), job, used) && site.flag < |job.rank|
    requires WellRanked(job.rank, inits + [site], init)
    modifies m
    ensures m.Valid() && m.Keeps(t, inits)
    ensures r.Went? ==> m.Standing(t, inits, At(site, Returned(Complete)), job, used + SlotsOf(init) + 3)
    ensures r.Went? ==> m.DidInit(t, inits, site, init) && InitPlayed(old(m.acts), m.acts, t, init)
    ensures r.Preempted? ==> m.GivenUp(t, job, used + SlotsOf(init) + 2)
    decreases init, 1, 0
  {
    hide Inv, IsRun, Init, Apply, Enabled, WellRanked, HasSpun, Memory.Valid, SettledIn, AllCalled, ClientActs,
      InitPlayed, InitTrace, Stores;
    var _ :- ExecuteStatement(m, t, inits, site, init, job, used);
    ghost var acts, s := m.acts, m.s;
    var _ :- IncrementClause(m, t, inits, site, true, job, used + SlotsOf(init) + 1);
    AllCalledWidely(acts, s, m.acts, m.s, t, inits + [site], init, |old(m.acts)|, |old(m.acts)|);
    InitPlayedQuietly(old(m.acts), old(m.acts), acts, m.acts, t, init);
    return Went(());
  }

  /** What the function does about the value its first compare-and-swap saw. */
  method ActOn(m: Memory, t: nat, ghost inits: seq<Site>, site: Site, actual: int, init: seq<Item>,
               ghost job: Job, ghost used: nat)
    returns (r: Progress<()>)
    requires m.Standing(t, inits, At(site, if actual == O.DONE then Returned(Complete)
                                           else if actual == O.DATA then WriteTid else Spin), job, used)
    requires site.flag < |job.rank| && WellRanked(job.rank, inits + [site], init) && site.form.Function?
    modifies m
    ensures m.Valid() && m.Keeps(t, inits)
    ensures r.Went? ==> m.Standing(t, inits, None, job, used + SlotsOf(init) + 3) && m.Settled(t, site.flag)
    ensures r.Went? ==>
      if actual == O.DATA then m.DidInit(t, inits, site, init) && InitPlayed(old(m.acts), m.acts, t, init)
      else m.Quiet(t)
    ensures r.Preempted? ==> m.GivenUp(t, job, used + SlotsOf(init) + 2)
    decreases init, 1, 1
  {
    hide Inv, IsRun, Init, Apply, Enabled, WellRanked, OnStack, Climbs, Memory.Valid, HasSpun, SettledIn, AllCalled,
      ClientActs, InitPlayed, InitTrace, Stores;
    if actual == O.DONE {
      m.Finish(t, inits, site, Complete, job, used);
      return Went(());
    }
    if actual != O.DATA {
      var _ :- WaitForDone(m, t, inits, site, job, used);
      m.Finish(t, inits, site, Complete, job, used);
      return Went(());
    }
    var _ :- RunAndPublish(m, t, inits, site, init, job, used);
    ghost var acts, s := m.acts, m.s;
    m.Finish(t, inits, site, Complete, job, used + SlotsOf(init) + 3);
    AllCalledWidely(acts, s, m.acts, m.s, t, inits + [site], init, |old(m.acts)|, |old(m.acts)|);
    InitPlayedQuietly(old(m.acts), old(m.acts), acts, m.acts, t, init);
    return Went(());
  }

  lemma CallPlayed(acts0: seq<Act>, acts1: seq<Act>, acts2: seq<Act>, t: nat, site: Site, init: seq<Item>)
    requires ClientActs(acts1, t) == ClientActs(acts0, t) + [Enter(site)]
    requires ClientActs(acts2, t) == ClientActs(acts1, t) || InitPlayed(acts1, acts2, t, init)
    ensures Played(acts0, acts2, t, site, init)
    ensures Won(acts0, acts2, t) ==> ClientActs(acts2, t) != ClientActs(acts1, t)
  {
    hide ClientActs, InitTrace;
    if ClientActs(acts2, t) == ClientActs(acts1, t) {
      assert CallTrace(site, init, [Enter(site)]);
    } else {
      var tr :| ClientActs(acts2, t) == ClientActs(acts1, t) + tr && InitTrace(init, tr);
      assert ([Enter(site)] + tr)[1..] == tr;
      assert CallTrace(site, init, [Enter(site)] + tr);
      assert ClientActs(acts2, t) == ClientActs(acts0, t) + ([Enter(site)] + tr);
    }
  }

  /** The function behind its entry. */
  method RunCall(m: Memory, t: nat, ghost inits: seq<Site>, site: Site, init: seq<Item>, ghost job: Job,
      ghost used: nat)
    returns (r: Progress<()>)
    requires m.Standing(t, inits, At(site, ReadTid), job, used) && MayCall(job.rank, inits, site, init)
    requires site.form.Function?
    modifies m
    ensures m.Valid() && m.Keeps(t, inits)
    ensures r.Went? ==> m.Standing(t, inits, None, job, used + Slots(init))
    ensures r.Went? && !OnStack(inits, site.flag) ==> m.Settled(t, site.flag)
    ensures r.Went? && !m.Quiet(t) ==>
      && site.flag < |old(m.s.flags)| && |old(m.s.flags)[site.flag].word| == 1
      && m.DidInit(t, inits, site, init) && InitPlayed(old(m.acts), m.acts, t, init)
    ensures r.Preempted? ==> m.GivenUp(t, job, used + Slots(init) - 1)
    ensures OnStack(inits, site.flag) && old(m.schedule) != [] ==> r.Went?
    decreases init, 2
  {
    hide Inv, IsRun, Init, Apply, Enabled, WellRanked, OnStack, Climbs, Memory.Valid, HasSpun, SettledIn, AllCalled,
      ClientActs, InitPlayed, InitTrace, Stores;
    var threadId :- m.ReadThreadId(t, inits, site, job, used);
    if threadId == Id(m.s.ids, t) {
      m.Finish(t, inits, site, Nested, job, used + 1);
      return Went(());
    }
    var actual :- m.CompareAndSwap(t, O.BUSY, O.DATA, inits, site, Cas, job, used + 1);
    ghost var acts := m.acts;
    var _ :- ActOn(m, t, inits, site, actual, init, job, used + 2);
    if actual == O.DATA {
      AllCalledWidely(m.acts, m.s, m.acts, m.s, t, inits + [site], init, |acts|, |old(m.acts)|);
      InitPlayedQuietly(old(m.acts), acts, m.acts, m.acts, t, init);
    }
    return Went(());
  }

  /** mulle_thread_once_call_recursive: unless it re-enters, it returns with init done and in view. A
      re-entry takes one slot; any other call takes one for each access of its own and of the calls its init
      makes, or more only if the thread has had to spin. */
  method OnceCallRecursive(m: Memory, t: nat, ghost inits: seq<Site>, site: Site, init: seq<Item>,
                           ghost job: Job, ghost used: nat)
    returns (r: Progress<()>)
    requires m.Standing(t, inits, None, job, used) && MayCall(job.rank, inits, site, init) && site.form.Function?
    modifies m
    ensures m.Valid() && m.Keeps(t, inits)
    ensures r.Went? ==> m.Standing(t, inits, None, job, used + Slots(init))
    ensures r.Went? ==> Called(m.acts, t, site, |old(m.acts)|)
    ensures r.Went? ==> Played(old(m.acts), m.acts, t, site, init) && m.OnlyWinnerRuns(t, inits, site, init)
    ensures r.Went? && !OnStack(inits, site.flag) ==> m.Settled(t, site.flag)
    ensures r.Preempted? ==> m.GivenUp(t, job, used + Slots(init) - 1)
    ensures OnStack(inits, site.flag) && old(m.schedule) != [] ==> r.Went?
    decreases init, 3
  {
    hide Inv, IsRun, Init, Apply, Enabled, WellRanked, OnStack, Climbs, Memory.Valid, HasSpun, SettledIn, Called,
      AllCalled,
      ClientActs, InitPlayed, InitTrace, Stores, Played;
    m.Start(t, inits, site, init, job, used);
    ghost var acts := m.acts;
    r := RunCall(m, t, inits, site, init, job, used);
    StillCalled(acts, m.acts, t, site, |old(m.acts)|);
    if r.Went? {
      CallPlayed(old(m.acts), acts, m.acts, t, site, init);
      if Won(old(m.acts), m.acts, t) {
        AllCalledWidely(m.acts, m.s, m.acts, m.s, t, inits + [site], init, |acts|, |old(m.acts)|);
      }
    }
  }

  /** The winner stores its id and runs init, or executes the statement. */
  method ExecuteStatement(m: Memory, t: nat, ghost inits: seq<Site>, site: Site, init: seq<Item>, ghost job: Job,
      ghost used: nat)
    returns (r: Progress<()>)
    requires m.Standing(t, inits, At(site, WriteTid), job, used)
    requires site.flag < |job.rank| && WellRanked(job.rank, inits + [site], init)
    modifies m
    ensures m.Valid() && m.Keeps(t, inits)
    ensures r.Went? ==> m.Standing(t, inits, At(site, ClearTid), job, used + 1 + SlotsOf(init))
    ensures r.Went? ==> m.DidInit(t, inits, site, init) && InitPlayed(old(m.acts), m.acts, t, init)
    ensures r.Preempted? ==> m.GivenUp(t, job, used + 1 + SlotsOf(init))
    decreases init, 0, 3
  {
    hide Inv, IsRun, Init, Apply, Enabled, WellRanked, OnStack, Climbs, Memory.Valid, HasSpun, SettledIn, AllCalled,
      ClientActs, InitPlayed, InitTrace, Stores;
    var _ :- m.WriteOwnId(t, inits, site, job, used);
    ghost var acts := m.acts;
    var _ :- RunInit(m, t, inits, site, init, job, used + 1);
    AllCalledWidely(m.acts, m.s, m.acts, m.s, t, inits + [site], init, |acts|, |old(m.acts)|);
    InitPlayedQuietly(old(m.acts), acts, m.acts, m.acts, t, init);
    return Went(());
  }

  /** The inner loop: the winner executes the statement, all others wait. */
  method StatementLoop(m: Memory, t: nat, ghost inits: seq<Site>, site: Site, actual: int, init: seq<Item>, exit: Exit,
                       ghost job: Job, ghost used: nat)
    returns (r: Progress<()>)
    requires m.Standing(t, inits, At(site, if actual == O.DATA then WriteTid else Spin), job, used)
    requires site.flag < |job.rank| && WellRanked(job.rank, inits + [site], init) && site.form.Macro?
    modifies m
    ensures m.Valid() && m.Keeps(t, inits)
    ensures r.Went? ==>
      m.Standing(t, inits, At(site, if actual == O.DATA then ClearTid else WaiterClear), job, used + 1 + SlotsOf(init))
    ensures r.Went? ==>
      if actual == O.DATA then m.DidInit(t, inits, site, init) && InitPlayed(old(m.acts), m.acts, t, init)
      else m.Quiet(t)
    ensures r.Preempted? ==> m.GivenUp(t, job, used + 1 + SlotsOf(init))
    decreases init, 1, 0
  {
    hide Inv, IsRun, Init, Apply, Enabled, WellRanked, OnStack, Climbs, Memory.Valid, HasSpun, SettledIn, AllCalled,
      ClientActs, InitPlayed, InitTrace, Stores;
    var j := 0;
    while j < 1
      invariant 0 <= j <= 1 && m.Keeps(t, inits) && (j == 1 ==> actual == O.DATA)
      invariant j == 0 ==> m.acts == old(m.acts) && m.s == old(m.s)
      invariant j == 1 ==> m.DidInit(t, inits, site, init) && InitPlayed(old(m.acts), m.acts, t, init)
      invariant m.Standing(t, inits, At(site, if j == 1 then ClearTid else if actual == O.DATA then WriteTid
              else Spin), job,
                           if j == 1 then used + 1 + SlotsOf(init) else used)
      decreases 1 - j
    {
      if actual != O.DATA {
        var _ :- WaitForDone(m, t, inits, site, job, used);
        break;
      }
      var _ :- ExecuteStatement(m, t, inits, site, init, job, used);
      if exit.Break? {
        break;
      }
      j := j + 1;  // also after `continue`
    }
    return Went(());
  }

  /** NULL, fence and compare-and-swap: what a winner does behind init, and in the macro as the outer
      increment clause a waiter, too. */
  method IncrementClause(m: Memory, t: nat, ghost inits: seq<Site>, site: Site, won: bool, ghost job: Job,
      ghost used: nat)
    returns (r: Progress<()>)
    requires m.Standing(t, inits, At(site, if won then ClearTid else WaiterClear), job, used) && site.flag < |job.rank|
    modifies m
    ensures m.Valid() && m.Keeps(t, inits) && m.Quiet(t)
    ensures r.Went? && won ==> m.s.flags[site.flag].data == old(m.s.flags)[site.flag].data
    ensures r.Went? ==> m.Standing(t, inits, At(site, Returned(Complete)), job, used + 2)
    ensures r.Preempted? ==> m.GivenUp(t, job, used + 1)
  {
    hide Inv, IsRun, Init, Apply, Enabled, Memory.Valid, HasSpun, SettledIn, ClientActs;
    var _ :- m.WriteNull(t, inits, site, if won then ClearTid else WaiterClear, job, used);
    m.Fence(t, inits, site, if won then Barrier else WaiterBarrier, job, used + 1);
    var _ :- m.CompareAndSwap(t, O.DONE, O.BUSY, inits, site, if won then Publish else WaiterCas, job, used + 1);
    return Went(());
  }

  /** One turn of the outer loop, which is all it makes. */
  method OuterTurn(m: Memory, t: nat, ghost inits: seq<Site>, site: Site, actual: int, init: seq<Item>, exit: Exit,
                   ghost job: Job, ghost used: nat)
    returns (r: Progress<()>)
    requires m.Standing(t, inits, At(site, if actual == O.DATA then WriteTid else Spin), job, used)
    requires site.flag < |job.rank| && WellRanked(job.rank, inits + [site], init) && site.form.Macro?
    modifies m
    ensures m.Valid() && m.Keeps(t, inits)
    ensures r.Went? ==> m.Standing(t, inits, At(site, Returned(Complete)), job, used + 3 + SlotsOf(init))
    ensures r.Went? ==>
      if actual == O.DATA then m.DidInit(t, inits, site, init) && InitPlayed(old(m.acts), m.acts, t, init)
      else m.Quiet(t)
    ensures r.Preempted? ==> m.GivenUp(t, job, used + 2 + SlotsOf(init))
    decreases init, 1, 1
  {
    hide Inv, IsRun, Init, Apply, Enabled, WellRanked, OnStack, Climbs, Memory.Valid, HasSpun, SettledIn, AllCalled,
      ClientActs, InitPlayed, InitTrace, Stores;
    var _ :- StatementLoop(m, t, inits, site, actual, init, exit, job, used);
    ghost var acts, s := m.acts, m.s;
    var _ :- IncrementClause(m, t, inits, site, actual == O.DATA, job, used + 1 + SlotsOf(init));
    if actual == O.DATA {
      AllCalledWidely(acts, s, m.acts, m.s, t, inits + [site], init, |old(m.acts)|, |old(m.acts)|);
      InitPlayedQuietly(old(m.acts), old(m.acts), acts, m.acts, t, init);
    }
    return Went(());
  }

  /** The outer loop, once it is initialised. */
  method OuterLoop(m: Memory, t: nat, ghost inits: seq<Site>, site: Site, initial: int, init: seq<Item>, exit: Exit,
                   ghost job: Job, ghost used: nat)
    returns (r: Progress<()>)
    requires m.Standing(t, inits, At(site, if initial == O.DONE then Returned(Complete)
                                           else if initial == O.DATA then WriteTid else Spin), job, used)
    requires site.flag < |job.rank| && WellRanked(job.rank, inits + [site], init) && site.form.Macro?
    modifies m
    ensures m.Valid() && m.Keeps(t, inits)
    ensures r.Went? ==> m.Standing(t, inits, None, job, used + SlotsOf(init) + 3) && m.Settled(t, site.flag)
    ensures r.Went? ==>
      if initial == O.DATA then m.DidInit(t, inits, site, init) && InitPlayed(old(m.acts), m.acts, t, init)
      else m.Quiet(t)
    ensures r.Preempted? ==> m.GivenUp(t, job, used + SlotsOf(init) + 2)
    decreases init, 1, 2
  {
    hide Inv, IsRun, Init, Apply, Enabled, WellRanked, OnStack, Climbs, Memory.Valid, HasSpun, SettledIn, AllCalled,
      ClientActs, InitPlayed, InitTrace, Stores;
    var actual := initial;
    while actual != O.DONE
      invariant m.Keeps(t, inits)
      invariant actual != O.DONE ==> actual == initial && m.acts == old(m.acts) && m.s == old(m.s)
      invariant actual == O.DONE && initial == O.DATA ==>
        m.DidInit(t, inits, site, init) && InitPlayed(old(m.acts), m.acts, t, init)
      invariant initial != O.DATA ==> m.Quiet(t)
      invariant m.Standing(t, inits, At(site, if actual == O.DONE then Returned(Complete)
                                              else if actual == O.DATA then WriteTid else Spin), job,
                           if actual == O.DONE then used + SlotsOf(init) + 3 else used)
      decreases actual != O.DONE
    {
      var _ :- OuterTurn(m, t, inits, site, actual, init, exit, job, used);
      actual := O.DONE;
    }
    ghost var acts, s := m.acts, m.s;
    m.Finish(t, inits, site, Complete, job, used + SlotsOf(init) + 3);
    if initial == O.DATA {
      AllCalledWidely(acts, s, m.acts, m.s, t, inits + [site], init, |old(m.acts)|, |old(m.acts)|);
      InitPlayedQuietly(old(m.acts), old(m.acts), acts, m.acts, t, init);
    }
    return Went(());
  }

  /** The macro behind its entry. */
  method RunMacro(m: Memory, t: nat, ghost inits: seq<Site>, site: Site, init: seq<Item>, exit: Exit,
                  ghost job: Job, ghost used: nat)
    returns (r: Progress<()>)
    requires m.Standing(t, inits, At(site, ReadTid), job, used) && MayCall(job.rank, inits, site, init)
    requires site.form.Macro?
    modifies m
    ensures m.Valid() && m.Keeps(t, inits)
    ensures r.Went? ==> m.Standing(t, inits, None, job, used + Slots(init))
    ensures r.Went? && !OnStack(inits, site.flag) ==> m.Settled(t, site.flag)
    ensures r.Went? && !m.Quiet(t) ==>
      && site.flag < |old(m.s.flags)| && |old(m.s.flags)[site.flag].word| == 1
      && m.DidInit(t, inits, site, init) && InitPlayed(old(m.acts), m.acts, t, init)
    ensures r.Preempted? ==> m.GivenUp(t, job, used + Slots(init) - 1)
    ensures OnStack(inits, site.flag) && old(m.schedule) != [] ==> r.Went?
    decreases init, 2
  {
    hide Inv, IsRun, Init, Apply, Enabled, WellRanked, OnStack, Climbs, Memory.Valid, HasSpun, SettledIn, AllCalled,
      ClientActs, InitPlayed, InitTrace, Stores;
    var threadId :- m.ReadThreadId(t, inits, site, job, used);
    if threadId == Id(m.s.ids, t) {
      m.Finish(t, inits, site, Nested, job, used + 1);  // the outer condition fails at once
      return Went(());
    }
    var actual :- m.CompareAndSwap(t, O.BUSY, O.DATA, inits, site, Cas, job, used + 1);
    ghost var acts := m.acts;
    var _ :- OuterLoop(m, t, inits, site, actual, init, exit, job, used + 2);
    if actual == O.DATA {
      AllCalledWidely(m.acts, m.s, m.acts, m.s, t, inits + [site], init, |acts|, |old(m.acts)|);
      InitPlayedQuietly(old(m.acts), acts, m.acts, m.acts, t, init);
    }
    return Went(());
  }

  /** mulle_thread_once_do_recursive: two nested loops, the inner one there to catch a `break` of the
      statement, so that however it is left the outer increment clause publishes. */
  method OnceDoRecursive(m: Memory, t: nat, ghost inits: seq<Site>, site: Site, init: seq<Item>, exit: Exit,
                         ghost job: Job, ghost used: nat)
    returns (r: Progress<()>)
    requires m.Standing(t, inits, None, job, used) && MayCall(job.rank, inits, site, init) && site.form.Macro?
    modifies m
    ensures m.Valid() && m.Keeps(t, inits)
    ensures r.Went? ==> m.Standing(t, inits, None, job, used + Slots(init))
    ensures r.Went? ==> Called(m.acts, t, site, |old(m.acts)|)
    ensures r.Went? ==> Played(old(m.acts), m.acts, t, site, init) && m.OnlyWinnerRuns(t, inits, site, init)
    ensures r.Went? && !OnStack(inits, site.flag) ==> m.Settled(t, site.flag)
    ensures r.Preempted? ==> m.GivenUp(t, job, used + Slots(init) - 1)
    ensures OnStack(inits, site.flag) && old(m.schedule) != [] ==> r.Went?
    decreases init, 3
  {
    hide Inv, IsRun, Init, Apply, Enabled, WellRanked, OnStack, Climbs, Memory.Valid, HasSpun, SettledIn, Called,
      AllCalled,
      ClientActs, InitPlayed, InitTrace, Stores, Played;
    m.Start(t, inits, site, init, job, used);
    ghost var acts := m.acts;
    r := RunMacro(m, t, inits, site, init, exit, job, used);
    StillCalled(acts, m.acts, t, site, |old(m.acts)|);
    if r.Went? {
      CallPlayed(old(m.acts), acts, m.acts, t, site, init);
      if Won(old(m.acts), m.acts, t) {
        AllCalledWidely(m.acts, m.s, m.acts, m.s, t, inits + [site], init, |acts|, |old(m.acts)|);
      }
    }
  }
}
