/** Recursive once flags, mulle_thread_once_call_recursive and mulle_thread_once_do_recursive, over any
    finite family of flags whose init functions may call further ones.

    A thread has a stack of the flags whose init it is running and at most one call in progress. Memory
    is view-based as in module Once; `_thread_id` is read with nothing but per-location coherence. */
module OnceRecursive {
  import opened Words
  import opened ThreadIds
  import opened Sums
  import O = Once

  datatype Form = Function | Macro

  datatype Site = Site(flag: nat, form: Form)

  datatype How = Nested | Complete

  datatype PC =
    | ReadTid | Cas | WriteTid | ClearTid | Barrier | Publish
    | Spin | SpinBarrier
    | WaiterClear | WaiterBarrier | WaiterCas   // increment clause of the macro, run by a waiter
    | Returned(how: How)

  datatype Call = None | At(site: Site, pc: PC)

  /** Newest messages seen of a flag's once word, of its `_thread_id` and of the data it guards. */
  datatype View = View(w: nat, t: nat, d: nat)

  datatype Thread = Thread(inits: seq<Site>, call: Call, view: seq<View>)

  /** A message of a once word; seen: what its writer had seen of the data of every flag. */
  datatype Msg = Msg(value: int, seen: seq<nat>)

  datatype Flag = Flag(word: seq<Msg>, tid: seq<Word>, data: seq<int>)

  datatype State = State(ids: seq<Dword>, rank: seq<nat>, flags: seq<Flag>, thr: seq<Thread>)

  datatype Choice =
    | Enter(site: Site)  // call a once function
    | Go(i: nat)         // the next access; i is the message it reads
    | Write(v: int)      // the running init writes v
    | EndInit
    | Return

  datatype Act = Act(t: nat, c: Choice)

  predicate Running(th: Thread, f: nat) {
    exists k :: 0 <= k < |th.inits| && th.inits[k].flag == f
  }

  predicate Shaped(s: State, t: nat) {
    && t < |s.thr| == |s.ids| && |s.rank| == |s.flags|
    && |s.thr[t].view| == |s.flags|
    && (s.thr[t].call.At? ==> s.thr[t].call.site.flag < |s.flags|)
    && (forall k :: 0 <= k < |s.thr[t].inits| ==> s.thr[t].inits[k].flag < |s.flags|)
  }

  /** An init calls higher-ranked flags, or flags already on its thread's own stack. */
  predicate MayEnter(s: State, t: nat, f: nat)
    requires Shaped(s, t)
  {
    var inits := s.thr[t].inits;
    && f < |s.flags|
    && (inits == [] || s.rank[inits[|inits| - 1].flag] < s.rank[f] || Running(s.thr[t], f))
  }

  predicate MayReadWord(s: State, t: nat, f: nat, i: nat)
    requires Shaped(s, t) && f < |s.flags|
  {
    s.thr[t].view[f].w <= i < |s.flags[f].word|
  }

  predicate MayCas(s: State, t: nat, f: nat, expected: int, i: nat)
    requires Shaped(s, t) && f < |s.flags|
  {
    && MayReadWord(s, t, f, i)
    && (s.flags[f].word[i].value == expected ==> i == |s.flags[f].word| - 1)
  }

  predicate MayReadTid(s: State, t: nat, f: nat, i: nat)
    requires Shaped(s, t) && f < |s.flags|
  {
    s.thr[t].view[f].t <= i < |s.flags[f].tid|
  }

  predicate Enabled(s: State, a: Act) {
    && Shaped(s, a.t)
    && var th := s.thr[a.t];
    && match th.call
       case None =>
         || (a.c.Enter? && MayEnter(s, a.t, a.c.site.flag))
         || ((a.c.Write? || a.c.EndInit?) && th.inits != [])
       case At(site, pc) =>
         match pc
         case ReadTid => a.c.Go? && MayReadTid(s, a.t, site.flag, a.c.i)
         case Cas => a.c.Go? && MayCas(s, a.t, site.flag, O.DATA, a.c.i)
         case Publish => a.c.Go? && MayCas(s, a.t, site.flag, O.BUSY, a.c.i)
         case WaiterCas => a.c.Go? && MayCas(s, a.t, site.flag, O.BUSY, a.c.i)
         case Spin => a.c.Go? && MayReadWord(s, a.t, site.flag, a.c.i)
         case Returned(_) => a.c.Return?
         case _ => a.c.Go?
  }

  /** Thread t goes on with the view and the call, having, perhaps, changed flag f. */
  function Update(s: State, t: nat, f: nat, flag: Flag, view: seq<View>, call: Call): State
    requires Shaped(s, t) && f < |s.flags|
  {
    s.(flags := s.flags[f := flag], thr := s.thr[t := s.thr[t].(call := call, view := view)])
  }

  function WriteTidTo(s: State, t: nat, f: nat, value: Word, call: Call): State
    requires Shaped(s, t) && f < |s.flags|
  {
    var flag, view := s.flags[f], s.thr[t].view;
    Update(s, t, f, flag.(tid := flag.tid + [value]), view[f := view[f].(t := |flag.tid|)], call)
  }

  /** A view joined with what the writer of a message had seen of the data. */
  function Joined(view: seq<View>, seen: seq<nat>): (r: seq<View>)
    ensures |r| == |view|
    ensures forall g :: 0 <= g < |view| ==> r[g].w == view[g].w && r[g].t == view[g].t && r[g].d >= view[g].d
    ensures forall g :: 0 <= g < |view| ==> r[g].d == if g < |seen| then O.Max(view[g].d, seen[g]) else view[g].d
  {
    seq(|view|, g requires 0 <= g < |view| =>
      if g < |seen| then view[g].(d := O.Max(view[g].d, seen[g])) else view[g])
  }

  /** What a thread with this view has seen of the data. */
  function SeenData(view: seq<View>): (r: seq<nat>)
    ensures |r| == |view| && forall g :: 0 <= g < |view| ==> r[g] == view[g].d
  {
    seq(|view|, g requires 0 <= g < |view| => view[g].d)
  }

  /** An acquiring read of message i of flag f's word: the thread moves up to it and to what it carries. */
  function Acquire(s: State, t: nat, f: nat, i: nat): seq<View>
    requires Shaped(s, t) && f < |s.flags| && i < |s.flags[f].word|
  {
    var view := Joined(s.thr[t].view, s.flags[f].word[i].seen);
    view[f := view[f].(w := i)]
  }

  function DoCas(s: State, t: nat, f: nat, value: int, expected: int, i: nat, call: Call): State
    requires Shaped(s, t) && f < |s.flags| && i < |s.flags[f].word|
  {
    var flag, view := s.flags[f], Acquire(s, t, f, i);
    if flag.word[i].value == expected
    then Update(s, t, f, flag.(word := flag.word + [Msg(value, SeenData(view))]),
                view[f := view[f].(w := |flag.word|)], call)
    else Update(s, t, f, flag, view, call)
  }

  function SetCall(s: State, t: nat, call: Call): State
    requires t < |s.thr|
  {
    s.(thr := s.thr[t := s.thr[t].(call := call)])
  }

  function Apply(s: State, a: Act): State
    requires Enabled(s, a)
  {
    var t, th, self := a.t, s.thr[a.t], Id(s.ids, a.t);
    match th.call
    case None =>
      (match a.c
       case Enter(site) => SetCall(s, t, At(site, ReadTid))
       case Write(v) =>
         var f := th.inits[|th.inits| - 1].flag;
         Update(s, t, f, s.flags[f].(data := s.flags[f].data + [v]),
                th.view[f := th.view[f].(d := |s.flags[f].data|)], None)
       case _ =>
         var n := |th.inits| - 1;
         s.(thr := s.thr[t := th.(inits := th.inits[..n], call := At(th.inits[n], ClearTid))]))
    case At(site, pc) =>
      var f, flag, view := site.flag, s.flags[site.flag], th.view[site.flag];
      match pc
      case ReadTid =>
        Update(s, t, f, flag, th.view[f := view.(t := a.c.i)],
               At(site, if flag.tid[a.c.i] == self then Returned(Nested) else Cas))
      case Cas =>
        var actual := flag.word[a.c.i].value;
        DoCas(s, t, f, O.BUSY, O.DATA, a.c.i,
              At(site, if actual == O.DATA then WriteTid else if actual == O.DONE then Returned(Complete) else Spin))
      case WriteTid =>
        var s' := WriteTidTo(s, t, f, self, None);
        s'.(thr := s'.thr[t := s'.thr[t].(inits := th.inits + [site])])
      case ClearTid => WriteTidTo(s, t, f, 0, At(site, Barrier))
      case Barrier => SetCall(s, t, At(site, Publish))
      case Publish => DoCas(s, t, f, O.DONE, O.BUSY, a.c.i, At(site, Returned(Complete)))
      case Spin =>
        Update(s, t, f, flag, Acquire(s, t, f, a.c.i),
               At(site, if flag.word[a.c.i].value == O.DONE then SpinBarrier else Spin))
      case SpinBarrier => SetCall(s, t, At(site, if site.form.Macro? then WaiterClear else Returned(Complete)))
      case WaiterClear => WriteTidTo(s, t, f, 0, At(site, WaiterBarrier))
      case WaiterBarrier => SetCall(s, t, At(site, WaiterCas))
      case WaiterCas => DoCas(s, t, f, O.DONE, O.BUSY, a.c.i, At(site, Returned(Complete)))
      case Returned(_) => SetCall(s, t, None)
  }

  ghost predicate Init(s: State) {
    && |s.thr| == |s.ids| && |s.rank| == |s.flags| && GoodIds(s.ids)
    && (forall f :: 0 <= f < |s.flags| ==>
          s.flags[f].word == [Msg(O.DATA, seq(|s.flags|, _ => 0))] && s.flags[f].tid == [0] && |s.flags[f].data| == 1)
    && (forall t :: 0 <= t < |s.thr| ==> s.thr[t] == Thread([], None, seq(|s.flags|, _ => View(0, 0, 0))))
  }

  ghost predicate IsRun(run: seq<State>, acts: seq<Act>) {
    && |run| == |acts| + 1
    && Init(run[0])
    && forall k :: 0 <= k < |acts| ==> Enabled(run[k], acts[k]) && run[k + 1] == Apply(run[k], acts[k])
  }

  lemma PrefixIsRun(run: seq<State>, acts: seq<Act>, n: nat)
    requires IsRun(run, acts) && n <= |acts|
    ensures IsRun(run[..n + 1], acts[..n])
  {
    hide Init, Enabled, Apply;
  }

  lemma ExtendedIsRun(run: seq<State>, acts: seq<Act>, a: Act)
    requires IsRun(run, acts) && Enabled(run[|acts|], a)
    ensures IsRun(run + [Apply(run[|acts|], a)], acts + [a])
  {
    hide Init, Enabled, Apply;
  }

  // ---- the invariant ----

  predicate CallAt(th: Thread, f: nat) {
    th.call.At? && th.call.site.flag == f
  }

  /** Between winning flag f's first compare-and-swap and having done the second. */
  predicate Owns(th: Thread, f: nat) {
    || Running(th, f)
    || (CallAt(th, f) && (th.call.pc.WriteTid? || th.call.pc.ClearTid? || th.call.pc.Barrier? || th.call.pc.Publish?))
  }

  /** The thread's id stands in flag f's `_thread_id`. */
  predicate Named(th: Thread, f: nat) {
    Running(th, f) || (CallAt(th, f) && th.call.pc.ClearTid?)
  }

  /** How many messages `_thread_id` holds while th owns the flag: the initial one, its id, its NULL. */
  function NameWrites(th: Thread, f: nat): nat {
    if Named(th, f) then 2 else if CallAt(th, f) && th.call.pc.WriteTid? then 1 else 3
  }

  predicate SeenDone(th: Thread, f: nat) {
    && CallAt(th, f)
    && (|| th.call.pc.SpinBarrier? || th.call.pc.WaiterClear? || th.call.pc.WaiterBarrier? || th.call.pc.WaiterCas?
        || th.call.pc == Returned(Complete))
  }

  /** Ranks climb along the stack and on to the call in progress, unless that is a re-entry. */
  predicate GoodStack(rank: seq<nat>, th: Thread) {
    && (forall k :: 0 <= k < |th.inits| ==> th.inits[k].flag < |rank|)
    && (forall j, k :: 0 <= j < k < |th.inits| ==> rank[th.inits[j].flag] < rank[th.inits[k].flag])
    && (th.call.At? ==>
          && th.call.site.flag < |rank|
          && (|| (forall k :: 0 <= k < |th.inits| ==> rank[th.inits[k].flag] < rank[th.call.site.flag])
              || (Running(th, th.call.site.flag) && (th.call.pc.ReadTid? || th.call.pc == Returned(Nested)))))
  }

  predicate FlagInv(flag: Flag, f: nat) {
    && 1 <= |flag.word| <= 3 && flag.word[0].value == O.DATA && |flag.tid| > 0
    && (|flag.word| > 1 ==> flag.word[1].value == O.BUSY)
    && (|flag.word| > 2 ==> flag.word[2].value == O.DONE)
    && (|flag.word| == 1 ==> |flag.data| == 1 && |flag.tid| == 1)
    && (|flag.word| == 3 ==> |flag.tid| >= 3)
    && (forall i :: 2 <= i < |flag.tid| ==> flag.tid[i] == 0)
    && (forall i :: 0 <= i < |flag.word| ==> f < |flag.word[i].seen| && flag.word[i].seen[f] < |flag.data|)
    && (|flag.word| > 2 ==> flag.word[2].seen[f] == |flag.data| - 1)
  }

  /** What thread th, whose id is `id`, knows of flag f. */
  predicate Knows(flag: Flag, id: Word, th: Thread, f: nat) {
    && f < |th.view|
    && var v := th.view[f];
    && v.w < |flag.word| && v.t < |flag.tid| && v.d < |flag.data|
    && (Owns(th, f) ==> |flag.word| == 2 && v.w == 1 && v.d == |flag.data| - 1 && |flag.tid| == NameWrites(th, f))
    && (if Named(th, f) then v.t == |flag.tid| - 1 && flag.tid[v.t] == id
        else forall i :: v.t <= i < |flag.tid| ==> flag.tid[i] != id)
    && (CallAt(th, f) && th.call.pc.Spin? ==> |flag.word| > 1 && v.w >= 1)
    && (SeenDone(th, f) ==> |flag.word| == 3 && v.w == 2 && v.d == |flag.data| - 1)
  }

  ghost predicate AllStacksGood(s: State) {
    && |s.thr| == |s.ids| && |s.rank| == |s.flags| && GoodIds(s.ids)
    && forall t :: 0 <= t < |s.thr| ==> Shaped(s, t) && GoodStack(s.rank, s.thr[t])
  }

  ghost predicate AllKnow(s: State) {
    && |s.thr| == |s.ids|
    && (forall f :: 0 <= f < |s.flags| ==> FlagInv(s.flags[f], f))
    && forall t, f :: 0 <= t < |s.thr| && 0 <= f < |s.flags| ==> Knows(s.flags[f], Id(s.ids, t), s.thr[t], f)
  }

  /** No two threads own a flag; a busy flag has an owner; a name in `_thread_id` is its owner's. */
  ghost predicate FlagOwned(s: State, f: nat) {
    && f < |s.flags| && |s.flags[f].tid| > 0
    && (forall t, u :: 0 <= t < |s.thr| && 0 <= u < |s.thr| && Owns(s.thr[t], f) && Owns(s.thr[u], f) ==> t == u)
    && (|s.flags[f].word| == 2 ==> exists t :: 0 <= t < |s.thr| && Owns(s.thr[t], f))
    && (s.flags[f].tid[|s.flags[f].tid| - 1] != 0 ==> exists t :: 0 <= t < |s.thr| && Named(s.thr[t], f))
  }

  /** Messages carry only data that are there. */
  ghost predicate AllSeen(s: State) {
    forall f, i :: 0 <= f < |s.flags| && 0 <= i < |s.flags[f].word| ==> SeenInRange(s.flags, s.flags[f].word[i])
  }

  /** t has everything in view that the message of flag f's word carries that it saw last. */
  ghost predicate HasAcquired(s: State, t: nat, f: nat) {
    && t < |s.thr| && f < |s.flags| == |s.thr[t].view| && s.thr[t].view[f].w < |s.flags[f].word|
    && var seen := s.flags[f].word[s.thr[t].view[f].w].seen;
    && |seen| == |s.flags| && forall g :: 0 <= g < |s.flags| ==> s.thr[t].view[g].d >= seen[g]
  }

  ghost predicate SeenInRange(flags: seq<Flag>, m: Msg) {
    |m.seen| == |flags| && forall g :: 0 <= g < |flags| ==> m.seen[g] < |flags[g].data|
  }

  ghost predicate Inv(s: State) {
    && AllStacksGood(s)
    && AllKnow(s)
    && AllSeen(s)
    && (forall t, f :: 0 <= t < |s.thr| && 0 <= f < |s.flags| ==> HasAcquired(s, t, f))
    && forall f :: 0 <= f < |s.flags| ==> FlagOwned(s, f)
  }

  // ---- the invariant is kept ----

  /** The one flag a step is about. */
  function Target(s: State, a: Act): (f: nat)
    requires Enabled(s, a)
    ensures f < |s.flags|
  {
    var th := s.thr[a.t];
    if th.call.At? then th.call.site.flag
    else if a.c.Enter? then a.c.site.flag
    else th.inits[|th.inits| - 1].flag
  }

  /** What the invariant says of one thread and one flag. */
  lemma InvFacts(s: State, t: nat, f: nat)
    requires Inv(s) && t < |s.thr| && f < |s.flags|
    ensures Shaped(s, t) && GoodStack(s.rank, s.thr[t]) && FlagInv(s.flags[f], f)
    ensures Knows(s.flags[f], Id(s.ids, t), s.thr[t], f) && Id(s.ids, t) != 0
    ensures forall u :: 0 <= u < |s.thr| && u != t ==> Id(s.ids, u) != Id(s.ids, t)
    ensures forall u :: 0 <= u < |s.thr| && u != t && Owns(s.thr[t], f) ==> !Owns(s.thr[u], f)
  {
    IdsAreDistinct(s.ids);
    assert FlagOwned(s, f);
  }

  /** Pushing and popping change which inits are running for one flag only. */
  lemma RunningChanges(s: State, a: Act, f: nat)
    requires Enabled(s, a) && GoodStack(s.rank, s.thr[a.t])
    ensures a.t < |Apply(s, a).thr|
    ensures var th, th' := s.thr[a.t], Apply(s, a).thr[a.t];
      Running(th', f) <==>
        if th.call.None? && a.c.EndInit? then Running(th, f) && f != Target(s, a)
        else Running(th, f) || (th.call.At? && th.call.pc.WriteTid? && f == Target(s, a))
  {
    var th, th' := s.thr[a.t], Apply(s, a).thr[a.t];
    if th.call.None? && a.c.EndInit? {
      var n := |th.inits| - 1;
      assert th'.inits == th.inits[..n];
      if Running(th, f) && f != Target(s, a) {
        var k :| 0 <= k <= n && th.inits[k].flag == f;
        assert th'.inits[k].flag == f;
      }
    } else if th.call.At? && th.call.pc.WriteTid? {
      assert th'.inits == th.inits + [th.call.site];
      assert th'.inits[|th.inits|].flag == Target(s, a);
      if Running(th, f) {
        var k :| 0 <= k < |th.inits| && th.inits[k].flag == f;
        assert th'.inits[k].flag == f;
      }
    }
  }

  /** Of flags other than f, a view gets ahead in the data only; of the data it never falls back. */
  ghost predicate ViewGrows(view: seq<View>, view': seq<View>, f: nat) {
    && |view'| == |view|
    && (forall g :: 0 <= g < |view| ==> view[g].d <= view'[g].d)
    && (forall g :: 0 <= g < |view| && g != f ==> view'[g].w == view[g].w && view'[g].t == view[g].t)
  }

  /** What a view has of the data of flags other than f is there. */
  ghost predicate InRange(flags: seq<Flag>, view: seq<View>, f: nat) {
    |view| == |flags| && forall g :: 0 <= g < |flags| && g != f ==> view[g].d < |flags[g].data|
  }

  /** What a step may do to its flag: nothing, or one message to one of the three locations. */
  ghost predicate Effect(s: State, s': State, t: nat, f: nat) {
    && t < |s.thr| == |s'.thr| == |s.ids| && f < |s.flags| == |s'.flags|
    && s'.ids == s.ids && s'.rank == s.rank
    && |s.thr[t].view| == |s.flags| == |s'.thr[t].view|
    && s'.flags == s.flags[f := s'.flags[f]] && s'.thr == s.thr[t := s'.thr[t]]
    && ViewGrows(s.thr[t].view, s'.thr[t].view, f) && InRange(s.flags, s'.thr[t].view, f)
    && var x, y := s.flags[f], s'.flags[f];
    && (|| y == x
        || (|x.word| == 1 && |y.word| == 2 && y == x.(word := x.word + [y.word[1]]) && Owns(s'.thr[t], f)
            && y.word[1].seen == SeenData(s'.thr[t].view))
        || (|x.word| == 2 && |y.word| == 3 && y == x.(word := x.word + [y.word[2]]) && Owns(s.thr[t], f)
            && y.word[2].seen == SeenData(s'.thr[t].view))
        || (y == x.(tid := x.tid + [Id(s.ids, t)]) && Owns(s.thr[t], f) && Named(s'.thr[t], f))
        || (y == x.(tid := x.tid + [0]) && (Owns(s.thr[t], f) || |x.word| == 3))
        || (y == x.(data := y.data) && |y.data| == |x.data| + 1 && Owns(s.thr[t], f)))
  }

  lemma DataFacts(s: State, t: nat, f: nat)
    requires Inv(s) && t < |s.thr| && f < |s.flags|
    ensures InRange(s.flags, s.thr[t].view, f) && HasAcquired(s, t, f)
    ensures forall i :: 0 <= i < |s.flags[f].word| ==> SeenInRange(s.flags, s.flags[f].word[i])
  {
    forall g | 0 <= g < |s.flags| ensures s.thr[t].view[g].d < |s.flags[g].data| && g < |s.thr[t].view| {
      assert Knows(s.flags[g], Id(s.ids, t), s.thr[t], g);
    }
    assert HasAcquired(s, t, f);
  }

  lemma InitEffect(s: State, a: Act)
    requires Inv(s) && Enabled(s, a) && s.thr[a.t].call.None?
    ensures Effect(s, Apply(s, a), a.t, Target(s, a))
  {
    hide Inv, FlagInv, Knows;
    InvFacts(s, a.t, Target(s, a));
    DataFacts(s, a.t, Target(s, a));
  }

  lemma CasEffect(s: State, a: Act)
    requires Inv(s) && Enabled(s, a) && s.thr[a.t].call.At?
    requires s.thr[a.t].call.pc in {Cas, Publish, WaiterCas}
    ensures Effect(s, Apply(s, a), a.t, Target(s, a))
  {
    hide Inv;
    InvFacts(s, a.t, Target(s, a));
    DataFacts(s, a.t, Target(s, a));
    RunningChanges(s, a, Target(s, a));
  }

  lemma StepEffect(s: State, a: Act)
    requires Inv(s) && Enabled(s, a)
    ensures Effect(s, Apply(s, a), a.t, Target(s, a))
  {
    hide Inv, FlagInv;
    InvFacts(s, a.t, Target(s, a));
    DataFacts(s, a.t, Target(s, a));
    if s.thr[a.t].call.None? {
      InitEffect(s, a);
    } else if s.thr[a.t].call.pc in {Cas, Publish, WaiterCas} {
      CasEffect(s, a);
    } else {
      RunningChanges(s, a, Target(s, a));
    }
  }

  /** After an acquiring access. */
  lemma AcquireAcquires(s: State, a: Act)
    requires Inv(s) && Enabled(s, a) && s.thr[a.t].call.At?
    requires s.thr[a.t].call.pc in {Cas, Publish, WaiterCas, Spin}
    ensures HasAcquired(Apply(s, a), a.t, Target(s, a))
  {
    hide Inv, FlagInv, Running, Knows, GoodStack, Owns, Named;
    InvFacts(s, a.t, Target(s, a));
    DataFacts(s, a.t, Target(s, a));
  }

  /** After any other step, which leaves the once word and the view of it alone. */
  lemma OthersAcquire(s: State, a: Act)
    requires Inv(s) && Enabled(s, a)
    requires s.thr[a.t].call.At? ==> s.thr[a.t].call.pc !in {Cas, Publish, WaiterCas, Spin}
    ensures HasAcquired(Apply(s, a), a.t, Target(s, a))
  {
    hide Inv, FlagInv, Running, Knows, GoodStack, Owns, Named;
    var s', t, f := Apply(s, a), a.t, Target(s, a);
    DataFacts(s, t, f);
    assert s'.thr[t].view[f].w == s.thr[t].view[f].w && s'.flags[f].word == s.flags[f].word;
    StepEffect(s, a);
    hide Apply, Enabled;
  }

  lemma AcquiredIsKept(s: State, a: Act, u: nat, f: nat)
    requires Inv(s) && Enabled(s, a) && u < |s.thr| && f < |s.flags|
    ensures HasAcquired(Apply(s, a), u, f)
  {
    hide Inv, Apply, Enabled, FlagInv, Knows, Running;
    StepEffect(s, a);
    DataFacts(s, u, f);
    if u == a.t && f == Target(s, a) {
      if s.thr[u].call.At? && s.thr[u].call.pc in {Cas, Publish, WaiterCas, Spin} {
        AcquireAcquires(s, a);
      } else {
        OthersAcquire(s, a);
      }
    }
  }

  lemma SeenIsKept(s: State, a: Act)
    requires Inv(s) && Enabled(s, a)
    ensures AllSeen(Apply(s, a))
  {
    hide Inv, Apply, Enabled, FlagInv, Running;
    var s', g := Apply(s, a), Target(s, a);
    StepEffect(s, a);
    SelfKeepsInv(s, a);
    forall f, i | 0 <= f < |s'.flags| && 0 <= i < |s'.flags[f].word|
      ensures SeenInRange(s'.flags, s'.flags[f].word[i]) {
      DataFacts(s, a.t, f);
      if i < |s.flags[f].word| {
        assert SeenInRange(s.flags, s.flags[f].word[i]) && s'.flags[f].word[i] == s.flags[f].word[i];
      }
    }
  }

  /** Another thread's knowledge of the flag survives the step. */
  lemma OthersKeepKnowing(s: State, a: Act, u: nat, f: nat)
    requires Inv(s) && Enabled(s, a) && u < |s.thr| && u != a.t && f < |s.flags|
    ensures f < |Apply(s, a).flags| && u < |Apply(s, a).thr| && Apply(s, a).thr[u] == s.thr[u]
    ensures Knows(Apply(s, a).flags[f], Id(s.ids, u), s.thr[u], f)
  {
    hide Inv, Apply, Enabled, Running;
    StepEffect(s, a);
    InvFacts(s, u, f);
    InvFacts(s, a.t, f);
  }

  /** The stepping thread's knowledge of the flags the step is not about. */
  lemma SelfKeepsOtherFlags(s: State, a: Act, f: nat)
    requires Inv(s) && Enabled(s, a) && f < |s.flags| && f != Target(s, a)
    ensures f < |Apply(s, a).flags| && a.t < |Apply(s, a).thr|
    ensures Owns(Apply(s, a).thr[a.t], f) == Owns(s.thr[a.t], f)
    ensures Named(Apply(s, a).thr[a.t], f) == Named(s.thr[a.t], f)
    ensures Knows(Apply(s, a).flags[f], Id(s.ids, a.t), Apply(s, a).thr[a.t], f)
  {
    hide Inv, FlagInv, Running;
    StepEffect(s, a);
    InvFacts(s, a.t, f);
    RunningChanges(s, a, f);
  }

  /** The stepping thread's knowledge of the flag the step is about, and the flag itself. */
  ghost predicate SelfOk(s: State, a: Act)
    requires Enabled(s, a)
  {
    var s', t, f := Apply(s, a), a.t, Target(s, a);
    && f < |s'.flags| && t < |s'.thr|
    && FlagInv(s'.flags[f], f) && Knows(s'.flags[f], Id(s.ids, t), s'.thr[t], f)
    && (Owns(s'.thr[t], f) ==> Owns(s.thr[t], f) || |s.flags[f].word| == 1)
    && (|s'.flags[f].word| == 2 && Owns(s.thr[t], f) ==> Owns(s'.thr[t], f))
    && (s'.flags[f].tid[|s'.flags[f].tid| - 1] != 0 ==>
          Named(s'.thr[t], f) || (s'.flags[f].tid == s.flags[f].tid && !Named(s.thr[t], f)))
  }

  lemma InitKeepsSelf(s: State, a: Act)
    requires Inv(s) && Enabled(s, a) && s.thr[a.t].call.None?
    ensures SelfOk(s, a)
  {
    hide Inv, Running;
    InvFacts(s, a.t, Target(s, a));
    RunningChanges(s, a, Target(s, a));
    if !a.c.Enter? { RunningTop(s, a); }
  }

  lemma RunningTop(s: State, a: Act)
    requires Enabled(s, a) && s.thr[a.t].call.None? && !a.c.Enter?
    ensures Running(s.thr[a.t], Target(s, a))
  {
  }

  lemma CasKeepsSelf(s: State, a: Act)
    requires Inv(s) && Enabled(s, a) && s.thr[a.t].call.At? && s.thr[a.t].call.pc in {Cas, Publish, WaiterCas}
    ensures SelfOk(s, a)
  {
    hide Inv, Running;
    InvFacts(s, a.t, Target(s, a));
    RunningChanges(s, a, Target(s, a));
    NotReentering(s, a.t);
  }

  /** Past the check of `_thread_id`, a call is not a re-entry. */
  lemma NotReentering(s: State, t: nat)
    requires t < |s.thr| && GoodStack(s.rank, s.thr[t]) && s.thr[t].call.At?
    requires s.thr[t].call.pc != ReadTid && s.thr[t].call.pc != Returned(Nested)
    ensures !Running(s.thr[t], s.thr[t].call.site.flag)
  {
  }

  lemma SelfKeepsInv(s: State, a: Act)
    requires Inv(s) && Enabled(s, a)
    ensures SelfOk(s, a)
  {
    hide Inv, Running;
    InvFacts(s, a.t, Target(s, a));
    if s.thr[a.t].call.None? {
      InitKeepsSelf(s, a);
    } else if s.thr[a.t].call.pc in {Cas, Publish, WaiterCas} {
      CasKeepsSelf(s, a);
    } else {
      RunningChanges(s, a, Target(s, a));
      if s.thr[a.t].call.pc != ReadTid && s.thr[a.t].call.pc != Returned(Nested) { NotReentering(s, a.t); }
    }
  }

  lemma PushKeepsStack(s: State, a: Act)
    requires Inv(s) && Enabled(s, a) && s.thr[a.t].call.At? && s.thr[a.t].call.pc.WriteTid?
    ensures GoodStack(s.rank, Apply(s, a).thr[a.t])
  {
    hide Inv, FlagInv, Knows;
    InvFacts(s, a.t, Target(s, a));
    NotReentering(s, a.t);
    var th, th' := s.thr[a.t], Apply(s, a).thr[a.t];
    assert th'.inits == th.inits + [th.call.site] && th'.call == None;
    assert forall k :: 0 <= k < |th.inits| ==> th'.inits[k] == th.inits[k];
  }

  lemma EndKeepsStack(s: State, a: Act)
    requires Inv(s) && Enabled(s, a) && s.thr[a.t].call.None?
    ensures GoodStack(s.rank, Apply(s, a).thr[a.t])
  {
    hide Inv, FlagInv, Knows;
    InvFacts(s, a.t, Target(s, a));
  }

  lemma StackStaysGood(s: State, a: Act)
    requires Inv(s) && Enabled(s, a)
    ensures GoodStack(s.rank, Apply(s, a).thr[a.t])
    ensures Apply(s, a).thr[a.t].call.At? ==> Apply(s, a).thr[a.t].call.site.flag < |s.flags|
    ensures forall k :: 0 <= k < |Apply(s, a).thr[a.t].inits| ==> Apply(s, a).thr[a.t].inits[k].flag < |s.flags|
  {
    hide Inv, FlagInv;
    InvFacts(s, a.t, Target(s, a));
    var th, th' := s.thr[a.t], Apply(s, a).thr[a.t];
    if th.call.None? {
      EndKeepsStack(s, a);
    } else if th.call.pc.WriteTid? {
      PushKeepsStack(s, a);
    } else {
      assert th'.inits == th.inits;
      assert Running(th', th.call.site.flag) == Running(th, th.call.site.flag);
    }
  }

  lemma StacksStayGood(s: State, a: Act)
    requires Inv(s) && Enabled(s, a)
    ensures AllStacksGood(Apply(s, a))
  {
    hide Apply, Enabled, FlagInv, Knows, GoodStack;
    var s' := Apply(s, a);
    StepEffect(s, a);
    StackStaysGood(s, a);
    forall u | 0 <= u < |s'.thr| ensures Shaped(s', u) && GoodStack(s'.rank, s'.thr[u]) {
      if u != a.t { assert Shaped(s, u) && GoodStack(s.rank, s.thr[u]) && s'.thr[u] == s.thr[u]; }
    }
  }

  lemma KnowledgeIsKept(s: State, a: Act)
    requires Inv(s) && Enabled(s, a)
    ensures AllKnow(Apply(s, a))
  {
    hide Apply, Enabled, FlagInv, Knows, GoodStack, Shaped, FlagOwned;
    var s', g := Apply(s, a), Target(s, a);
    StepEffect(s, a);
    SelfKeepsInv(s, a);
    forall u, f | 0 <= u < |s'.thr| && 0 <= f < |s'.flags| ensures Knows(s'.flags[f], Id(s'.ids, u), s'.thr[u], f) {
      if u != a.t { OthersKeepKnowing(s, a, u, f); } else if f != g { SelfKeepsOtherFlags(s, a, f); }
    }
  }

  lemma OwnershipIsKept(s: State, a: Act, f: nat)
    requires Inv(s) && Enabled(s, a) && f < |Apply(s, a).flags|
    ensures FlagOwned(Apply(s, a), f)
  {
    hide Inv, Apply, Enabled, FlagInv, Knows, GoodStack, Shaped, Owns, Named, FlagOwned;
    var s', t := Apply(s, a), a.t;
    StepEffect(s, a);
    TargetOwned(s, f);
    if f == Target(s, a) {
      SelfKeepsInv(s, a);
      OwnersSeeBusy(s, f);
    } else {
      SelfKeepsOtherFlags(s, a, f);
    }
    OwnedAfter(s, s', t, f);
  }

  lemma TargetOwned(s: State, f: nat)
    requires Inv(s) && f < |s.flags|
    ensures FlagOwned(s, f)
  {
  }

  lemma OwnersSeeBusy(s: State, f: nat)
    requires Inv(s) && f < |s.flags|
    ensures forall u :: 0 <= u < |s.thr| && Owns(s.thr[u], f) ==> |s.flags[f].word| == 2
  {
    forall u | 0 <= u < |s.thr| && Owns(s.thr[u], f) ensures |s.flags[f].word| == 2 {
      assert Knows(s.flags[f], Id(s.ids, u), s.thr[u], f);
    }
  }

  /** Who owns flag f after t has moved: the others as before, and t by what its step did. */
  lemma OwnedAfter(s: State, s': State, t: nat, f: nat)
    requires FlagOwned(s, f) && t < |s.thr| == |s'.thr| && f < |s'.flags| && |s'.flags[f].tid| > 0
    requires s'.thr == s.thr[t := s'.thr[t]]
    requires Owns(s'.thr[t], f) ==> Owns(s.thr[t], f) || forall u :: 0 <= u < |s.thr| ==> !Owns(s.thr[u], f)
    requires |s'.flags[f].word| == 2 ==>
      Owns(s'.thr[t], f) || (|s.flags[f].word| == 2 && !Owns(s.thr[t], f))
    requires var tid, tid' := s.flags[f].tid, s'.flags[f].tid;
      tid'[|tid'| - 1] != 0 ==> Named(s'.thr[t], f) || (tid' == tid && !Named(s.thr[t], f))
    ensures FlagOwned(s', f)
  {
    hide Owns, Named;
    if |s'.flags[f].word| == 2 && !Owns(s'.thr[t], f) {
      var u :| 0 <= u < |s.thr| && Owns(s.thr[u], f);
      assert Owns(s'.thr[u], f);
    }
    if s'.flags[f].tid[|s'.flags[f].tid| - 1] != 0 && !Named(s'.thr[t], f) {
      var u :| 0 <= u < |s.thr| && Named(s.thr[u], f);
      assert Named(s'.thr[u], f);
    }
  }

  lemma StepKeepsInv(s: State, a: Act)
    requires Inv(s) && Enabled(s, a)
    ensures Inv(Apply(s, a))
  {
    hide Apply, Enabled, AllStacksGood, AllKnow, AllSeen, HasAcquired, FlagOwned;
    StacksStayGood(s, a);
    KnowledgeIsKept(s, a);
    SeenIsKept(s, a);
    StepEffect(s, a);
    forall t, f | 0 <= t < |s.thr| && 0 <= f < |s.flags| ensures HasAcquired(Apply(s, a), t, f) {
      AcquiredIsKept(s, a, t, f);
    }
    forall f | 0 <= f < |Apply(s, a).flags| ensures FlagOwned(Apply(s, a), f) {
      OwnershipIsKept(s, a, f);
    }
  }

  lemma {:induction false} RunKeepsInv(run: seq<State>, acts: seq<Act>)
    requires IsRun(run, acts)
    ensures forall k :: 0 <= k < |run| ==> Inv(run[k])
  {
    if |acts| == 0 {
      InitIsGood(run[0]);
    } else {
      var n := |acts|;
      RunKeepsInv(run[..n], acts[..n - 1]);
      assert Inv(run[..n][n - 1]);
      hide Inv, Init, Apply, Enabled;
      StepKeepsInv(run[n - 1], acts[n - 1]);
      assert forall k :: 0 <= k < n ==> run[k] == run[..n][k];
    }
  }

  lemma NobodyRuns(th: Thread, f: nat)
    requires th.inits == [] && th.call.None?
    ensures !Running(th, f) && !Owns(th, f) && !Named(th, f)
  {
  }

  lemma InitIsGood(s: State)
    requires Init(s)
    ensures Inv(s)
  {
    IdsAreDistinct(s.ids);
    hide Owns, Named, Running;
    forall t, f | 0 <= t < |s.thr| && 0 <= f < |s.flags|
      ensures Knows(s.flags[f], Id(s.ids, t), s.thr[t], f) && HasAcquired(s, t, f)
    {
      NobodyRuns(s.thr[t], f);
    }
    forall f | 0 <= f < |s.flags| ensures FlagOwned(s, f) {
      forall t | 0 <= t < |s.thr| ensures !Owns(s.thr[t], f) { NobodyRuns(s.thr[t], f); }
    }
    assert AllStacksGood(s) && AllSeen(s);
  }

  // ---- re-entry and safety ----

  /** Whatever coherent read the check of `_thread_id` makes, it finds the caller's own id exactly when
      the caller is inside that flag's init; and then it returns without touching anything else. */
  lemma ReentryIsExact(run: seq<State>, acts: seq<Act>, k: nat)
    requires IsRun(run, acts) && k < |acts|
    requires run[k].thr[acts[k].t].call.At? && run[k].thr[acts[k].t].call.pc.ReadTid?
    ensures var s, s', t := run[k], run[k + 1], acts[k].t;
      var site := s.thr[t].call.site;
      && (s'.thr[t].call == At(site, Returned(Nested)) <==> Running(s.thr[t], site.flag))
      && (s'.thr[t].call == At(site, Cas) <==> !Running(s.thr[t], site.flag))
      && s'.flags == s.flags
  {
    RunKeepsInv(run, acts);
    hide Inv;
    InvFacts(run[k], acts[k].t, Target(run[k], acts[k]));
  }

  /** Step k is where a thread enters the init of flag f. */
  ghost predicate EntersInit(run: seq<State>, acts: seq<Act>, k: nat, f: nat)
    requires IsRun(run, acts) && k < |acts|
  {
    !Running(run[k].thr[acts[k].t], f) && Running(run[k + 1].thr[acts[k].t], f)
  }

  /** Init of f has been entered: it runs, is being published, or is published. */
  ghost predicate Entered(s: State, f: nat) {
    f < |s.flags| && (|s.flags[f].word| == 3 || exists t :: 0 <= t < |s.thr| && PastEntry(s.thr[t], f))
  }

  predicate PastEntry(th: Thread, f: nat) {
    Owns(th, f) && !(CallAt(th, f) && th.call.pc.WriteTid?)
  }

  lemma StepPastEntry(s: State, a: Act, f: nat)
    requires Inv(s) && Enabled(s, a) && f < |s.flags|
    ensures f < |Apply(s, a).flags|
    ensures PastEntry(s.thr[a.t], f) ==> PastEntry(Apply(s, a).thr[a.t], f) || |Apply(s, a).flags[f].word| == 3
    ensures |s.flags[f].word| == 3 ==>
      Apply(s, a).flags[f].word == s.flags[f].word && Apply(s, a).flags[f].data == s.flags[f].data
    ensures !Running(s.thr[a.t], f) && Running(Apply(s, a).thr[a.t], f) ==>
      PastEntry(Apply(s, a).thr[a.t], f) && !Entered(s, f)
  {
    hide Inv;
    InvFacts(s, a.t, f);
    StepEffect(s, a);
    RunningChanges(s, a, f);
    if f != Target(s, a) {
      SelfKeepsOtherFlags(s, a, f);
    } else if s.thr[a.t].call.At? && s.thr[a.t].call.pc != ReadTid && s.thr[a.t].call.pc != Returned(Nested) {
      NotReentering(s, a.t);
    }
  }

  lemma EnteredStep(s: State, a: Act, f: nat)
    requires Inv(s) && Enabled(s, a) && Entered(s, f)
    ensures Entered(Apply(s, a), f)
  {
    hide Inv, Apply, Enabled, PastEntry;
    StepPastEntry(s, a, f);
    StepEffect(s, a);
    var s' := Apply(s, a);
    if |s.flags[f].word| != 3 {
      var u :| 0 <= u < |s.thr| && PastEntry(s.thr[u], f);
      assert u != a.t ==> s'.thr[u] == s.thr[u];
      assert PastEntry(s'.thr[u], f) || |s'.flags[f].word| == 3;
    }
  }

  lemma {:induction false} StaysEntered(run: seq<State>, acts: seq<Act>, j: nat, k: nat, f: nat)
    requires IsRun(run, acts) && j <= k < |run| && Entered(run[j], f)
    ensures Entered(run[k], f)
    decreases k - j
  {
    hide Inv, Init, Entered, Apply, Enabled;
    if j == k {
    } else {
      StaysEntered(run, acts, j, k - 1, f);
      assert Inv(run[k - 1]) by { RunKeepsInv(run, acts); }
      EnteredStep(run[k - 1], acts[k - 1], f);
    }
  }

  /** Each flag's init is entered at most once in a run, by whatever forms and from whatever stacks. */
  lemma InitRunsOnce(run: seq<State>, acts: seq<Act>, j: nat, k: nat, f: nat)
    requires IsRun(run, acts) && j < k < |acts| && f < |run[j].flags|
    requires EntersInit(run, acts, j, f)
    ensures !EntersInit(run, acts, k, f)
  {
    RunKeepsInv(run, acts);
    hide Inv, Apply, Enabled, PastEntry;
    StepPastEntry(run[j], acts[j], f);
    StepEffect(run[j], acts[j]);
    assert Entered(run[j + 1], f);
    StaysEntered(run, acts, j + 1, k, f);
    StepPastEntry(run[k], acts[k], f);
  }

  lemma {:induction false} SettledStays(run: seq<State>, acts: seq<Act>, j: nat, k: nat, f: nat)
    requires IsRun(run, acts) && j <= k < |run| && f < |run[j].flags| && |run[j].flags[f].word| == 3
    ensures f < |run[k].flags|
    ensures run[k].flags[f].word == run[j].flags[f].word && run[k].flags[f].data == run[j].flags[f].data
    decreases k - j
  {
    hide Inv, Init, Entered, Apply, Enabled;
    if j == k {
    } else {
      SettledStays(run, acts, j, k - 1, f);
      assert Inv(run[k - 1]) by { RunKeepsInv(run, acts); }
      StepPastEntry(run[k - 1], acts[k - 1], f);
    }
  }

  /** A call that returns otherwise than by re-entry comes after init, and from then on every read of the
      data by that thread, however stale, finds what init left there. */
  lemma ReturnSeesInit(run: seq<State>, acts: seq<Act>, j: nat, t: nat, f: nat, k: nat, i: nat)
    requires IsRun(run, acts) && j <= k < |run|
    requires t < |run[j].thr| && CallAt(run[j].thr[t], f) && run[j].thr[t].call.pc == Returned(Complete)
    requires f < |run[j].thr[t].view| == |run[j].flags| == |run[k].flags|
    requires run[j].thr[t].view[f].d <= i < |run[k].flags[f].data|
    ensures forall u :: 0 <= u < |run[j].thr| ==> !Running(run[j].thr[u], f)
    ensures |run[j].flags[f].data| > 0 && run[k].flags[f].data[i] == run[j].flags[f].data[|run[j].flags[f].data| - 1]
  {
    RunKeepsInv(run, acts);
    InvFacts(run[j], t, f);
    OwnersSeeBusy(run[j], f);
    SettledStays(run, acts, j, k, f);
  }

  // ---- what init saw, its callers see ----

  /** Flag g is done, and what its init wrote is on its way to everybody who waits for flag f: thread u,
      between entering f's init and publishing f, has it in view, or the DONE of f carries it. */
  ghost predicate Carried(s: State, u: nat, f: nat, g: nat) {
    && u < |s.thr| && f < |s.flags| && g < |s.flags| == |s.thr[u].view| && |s.flags[g].word| == 3
    && (|| (PastEntry(s.thr[u], f) && s.thr[u].view[g].d == |s.flags[g].data| - 1)
        || (|s.flags[f].word| == 3 && g < |s.flags[f].word[2].seen|
            && s.flags[f].word[2].seen[g] == |s.flags[g].data| - 1))
  }

  lemma DataInRange(s: State, t: nat, g: nat)
    requires Inv(s) && t < |s.thr| && g < |s.flags|
    ensures |s.thr[t].view| == |s.flags| && s.thr[t].view[g].d < |s.flags[g].data|
  {
    InvFacts(s, t, g);
  }

  lemma PastEntryOwns(th: Thread, f: nat)
    requires PastEntry(th, f)
    ensures Owns(th, f)
  {
  }

  lemma StepCarries(s: State, a: Act, u: nat, f: nat, g: nat)
    requires Inv(s) && Enabled(s, a) && Carried(s, u, f, g)
    ensures Carried(Apply(s, a), u, f, g)
  {
    var s' := Apply(s, a);
    StepKeepsInv(s, a);
    StepEffect(s, a);
    StepPastEntry(s, a, f);
    StepPastEntry(s, a, g);
    hide Apply, Enabled, FlagInv, Knows, Running, PastEntry, GoodStack;
    DataInRange(s', u, g);
    InvFacts(s, a.t, f);
    if |s.flags[f].word| != 3 {
      PastEntryOwns(s.thr[u], f);
      OwnersSeeBusy(s, f);
    }
    hide Inv, Owns, Named;
  }

  lemma {:induction false} StaysCarried(run: seq<State>, acts: seq<Act>, i: nat, j: nat, u: nat, f: nat, g: nat)
    requires IsRun(run, acts) && i <= j < |run| && Carried(run[i], u, f, g)
    ensures Carried(run[j], u, f, g)
    decreases j - i
  {
    hide Inv, Init, Carried, Apply, Enabled;
    if i == j {
    } else {
      StaysCarried(run, acts, i, j - 1, u, f, g);
      RunKeepsInv(run, acts);
      StepCarries(run[j - 1], acts[j - 1], u, f, g);
    }
  }

  lemma CarriedArrives(s: State, u: nat, f: nat, g: nat, t: nat)
    requires Inv(s) && Carried(s, u, f, g) && t < |s.thr| && SeenDone(s.thr[t], f)
    ensures |s.thr[t].view| == |s.flags| && s.thr[t].view[g].d == |s.flags[g].data| - 1
  {
    InvFacts(s, t, f);
    DataFacts(s, t, f);
    DataInRange(s, t, g);
    if PastEntry(s.thr[u], f) {
      PastEntryOwns(s.thr[u], f);
      OwnersSeeBusy(s, f);
    }
  }

  /** Visibility is transitive. What another flag's init left there, and the thread that ran init had in view
      when it published, is in view of everybody who returns from the call: all later reads find it. */
  lemma SeenByInitIsSeenByAll(run: seq<State>, acts: seq<Act>, i: nat, u: nat, f: nat, g: nat, j: nat, t: nat, k: nat,
      x: nat)
    requires IsRun(run, acts) && i <= j <= k < |run| && Carried(run[i], u, f, g)
    requires t < |run[j].thr| && CallAt(run[j].thr[t], f) && run[j].thr[t].call.pc == Returned(Complete)
    requires g < |run[j].thr[t].view| && g < |run[k].flags|
    requires run[j].thr[t].view[g].d <= x < |run[k].flags[g].data|
    ensures |run[i].flags[g].data| > 0 && run[k].flags[g].data[x] == run[i].flags[g].data[|run[i].flags[g].data| - 1]
  {
    hide Inv, Init, Apply, Enabled, Running, PastEntry;
    RunKeepsInv(run, acts);
    StaysCarried(run, acts, i, j, u, f, g);
    CarriedArrives(run[j], u, f, g, t);
    SettledStays(run, acts, i, j, g);
    SettledStays(run, acts, j, k, g);
  }

  /** In particular, a flag whose call was completed inside f's init is initialised for all callers of f. */
  lemma NestedInitIsSeenByAll(run: seq<State>, acts: seq<Act>, i: nat, u: nat, f: nat, g: nat)
    requires IsRun(run, acts) && i < |run| && u < |run[i].thr| && f < |run[i].flags|
    requires Running(run[i].thr[u], f) && CallAt(run[i].thr[u], g) && run[i].thr[u].call.pc == Returned(Complete)
    ensures Carried(run[i], u, f, g)
  {
    RunKeepsInv(run, acts);
    FlagBounds(run[i], u);
    InvFacts(run[i], u, g);
    InvFacts(run[i], u, f);
    NotWriting(run[i].thr[u], f, run[i].rank);
  }

  lemma NotWriting(th: Thread, f: nat, rank: seq<nat>)
    requires Running(th, f) && GoodStack(rank, th)
    ensures PastEntry(th, f)
  {
  }

  /** Each word goes DATA, BUSY, DONE and is BUSY exactly while it has its one owner; and `_thread_id`
      holds a name exactly while an owner's init runs or is about to clear it. */
  lemma FlagProtocol(run: seq<State>, acts: seq<Act>, k: nat, f: nat)
    requires IsRun(run, acts) && k < |run| && f < |run[k].flags|
    ensures var s, flag := run[k], run[k].flags[f];
      && 1 <= |flag.word| <= 3 && |flag.tid| > 0 && |s.thr| == |s.ids|
      && (forall i :: 0 <= i < |flag.word| ==> flag.word[i].value == [O.DATA, O.BUSY, O.DONE][i])
      && (flag.word[|flag.word| - 1].value == O.BUSY <==> exists t :: 0 <= t < |s.thr| && Owns(s.thr[t], f))
      && (forall t, u :: 0 <= t < |s.thr| && 0 <= u < |s.thr| && Owns(s.thr[t], f) && Owns(s.thr[u], f) ==> t == u)
      && (forall t :: 0 <= t < |s.thr| && Named(s.thr[t], f) ==> flag.tid[|flag.tid| - 1] == Id(s.ids, t))
      && ((forall t :: 0 <= t < |s.thr| ==> !Named(s.thr[t], f)) ==> flag.tid[|flag.tid| - 1] == 0)
  {
    RunKeepsInv(run, acts);
    var s := run[k];
    assert Inv(s) && |s.thr| == |s.ids|;
    TargetOwned(s, f);
    OwnersSeeBusy(s, f);
    assert FlagInv(s.flags[f], f);
    hide Inv, Knows, GoodStack, Running;
    forall t | 0 <= t < |s.thr| && Named(s.thr[t], f) ensures s.flags[f].tid[|s.flags[f].tid| - 1] == Id(s.ids, t) {
      InvFacts(s, t, f);
    }
  }

  // ---- no deadlock ----

  /** t spins on a flag whose newest message is BUSY. */
  predicate Blocked(s: State, t: nat) {
    && Shaped(s, t) && s.thr[t].call.At? && s.thr[t].call.pc.Spin?
    && |s.flags[s.thr[t].call.site.flag].word| == 2
  }

  predicate WaitsFor(s: State, t: nat, u: nat) {
    Blocked(s, t) && u < |s.thr| && Owns(s.thr[u], s.thr[t].call.site.flag)
  }

  predicate FailedSpin(s: State, a: Act)
    requires Enabled(s, a)
  {
    && s.thr[a.t].call.At? && s.thr[a.t].call.pc.Spin?
    && s.flags[s.thr[a.t].call.site.flag].word[a.c.i].value != O.DONE
  }

  ghost predicate CanMove(s: State, t: nat) {
    exists c :: Enabled(s, Act(t, c)) && !FailedSpin(s, Act(t, c))
  }

  predicate Busy(th: Thread) {
    th.call.At? || th.inits != []
  }

  lemma UnblockedCanMove(s: State, t: nat)
    requires Inv(s) && t < |s.thr| && Busy(s.thr[t]) && !Blocked(s, t)
    ensures CanMove(s, t)
  {
    hide Inv;
    var th := s.thr[t];
    var c := EndInit;
    if th.call.At? {
      assert Shaped(s, t) by { FlagBounds(s, t); }
      var f := th.call.site.flag;
      InvFacts(s, t, f);
      c := if th.call.pc.Returned? then Return
           else if th.call.pc.ReadTid? then Go(|s.flags[f].tid| - 1)
           else Go(|s.flags[f].word| - 1);
    } else {
      assert Shaped(s, t) by { FlagBounds(s, t); }
    }
    assert Enabled(s, Act(t, c)) && !FailedSpin(s, Act(t, c));
  }

  lemma FlagBounds(s: State, t: nat)
    requires Inv(s) && t < |s.thr|
    ensures Shaped(s, t) && GoodStack(s.rank, s.thr[t])
  {
  }

  function MaxRank(rank: seq<nat>): (m: nat)
    ensures forall f :: 0 <= f < |rank| ==> rank[f] <= m
  {
    if |rank| == 0 then 0 else O.Max(rank[|rank| - 1], MaxRank(rank[..|rank| - 1]))
  }

  /** The rank of the flag t is blocked on; a thread that is not blocked counts above all ranks. */
  function WaitRank(s: State, t: nat): (r: nat)
    ensures !Blocked(s, t) <==> r > MaxRank(s.rank)
  {
    if Blocked(s, t) then s.rank[s.thr[t].call.site.flag] else MaxRank(s.rank) + 1
  }

  /** The owner of the flag t waits for is another thread, and if it waits too, then for a higher rank. */
  lemma OwnerRanksHigher(s: State, t: nat) returns (u: nat)
    requires Inv(s) && t < |s.thr| && Blocked(s, t)
    ensures WaitsFor(s, t, u) && Busy(s.thr[u]) && u != t && WaitRank(s, t) < WaitRank(s, u)
  {
    var f := s.thr[t].call.site.flag;
    assert FlagOwned(s, f);
    u :| 0 <= u < |s.thr| && Owns(s.thr[u], f);
    FlagBounds(s, t);
    FlagBounds(s, u);
    NotReentering(s, t);
    if Running(s.thr[u], f) {
      var k :| 0 <= k < |s.thr[u].inits| && s.thr[u].inits[k].flag == f;
      if Blocked(s, u) { NotReentering(s, u); }
    }
  }

  /** Each thread on the path waits for the next, in strictly climbing rank; the last one can move. */
  ghost predicate WaitChain(s: State, path: seq<nat>) {
    && |path| > 0
    && (forall k :: 0 < k < |path| ==>
          WaitsFor(s, path[k - 1], path[k]) && WaitRank(s, path[k - 1]) < WaitRank(s, path[k]))
    && CanMove(s, path[|path| - 1])
  }

  lemma {:induction false} FollowChain(s: State, t: nat) returns (path: seq<nat>)
    requires Inv(s) && t < |s.thr| && Busy(s.thr[t])
    ensures WaitChain(s, path) && path[0] == t
    decreases MaxRank(s.rank) + 1 - WaitRank(s, t)
  {
    if !Blocked(s, t) {
      UnblockedCanMove(s, t);
      path := [t];
    } else {
      var u := OwnerRanksHigher(s, t);
      hide Inv, CanMove, Blocked, WaitsFor, Busy, MaxRank;
      var rest := FollowChain(s, u);
      path := [t] + rest;
      assert forall k :: 1 <= k < |path| ==> path[k] == rest[k - 1];
    }
  }

  /** No reachable state is deadlocked: from any thread in the middle of something, the chain of waits
      climbs strictly in rank and ends at a thread that can take a step other than another spin. */
  lemma NoDeadlock(run: seq<State>, acts: seq<Act>, k: nat, t: nat)
    requires IsRun(run, acts) && k < |run| && t < |run[k].thr| && Busy(run[k].thr[t])
    ensures exists path :: WaitChain(run[k], path) && path[0] == t
  {
    RunKeepsInv(run, acts);
    var path := FollowChain(run[k], t);
  }

  // ---- bounded work ----

  function PcRank(pc: PC): nat {
    match pc
    case ReadTid => 8
    case Cas => 7
    case WriteTid => 6
    case Spin => 6
    case SpinBarrier => 5
    case ClearTid => 4
    case WaiterClear => 4
    case Barrier => 3
    case WaiterBarrier => 3
    case Publish => 2
    case WaiterCas => 2
    case Returned(_) => 1
  }

  /** What a thread still has to do for the calls it is in, spinning aside. */
  function ThreadRank(th: Thread): nat {
    5 * |th.inits| + if th.call.At? then PcRank(th.call.pc) else 0
  }

  function Rank(s: State): nat { Total(ThreadRank, s.thr) }

  /** The steps a client's choice pays for: nine for a call, one for a write. */
  function Price(c: Choice): nat {
    if c.Enter? then 9 else if c.Write? then 1 else 0
  }

  lemma ThreadRankDrops(s: State, a: Act)
    requires Enabled(s, a)
    ensures a.t < |Apply(s, a).thr|
    ensures var before, after := ThreadRank(s.thr[a.t]), ThreadRank(Apply(s, a).thr[a.t]);
      if FailedSpin(s, a) then after == before else after < before + Price(a.c)
  {
    hide Running;
  }

  lemma StepRank(s: State, a: Act)
    requires Inv(s) && Enabled(s, a)
    ensures if FailedSpin(s, a) then Rank(Apply(s, a)) == Rank(s) else Rank(Apply(s, a)) < Rank(s) + Price(a.c)
    ensures FailedSpin(s, a) ==> Price(a.c) == 0
  {
    ThreadRankDrops(s, a);
    StepEffect(s, a);
    assert FailedSpin(s, a) ==> Price(a.c) == 0;
    hide Inv, Apply, Enabled, ThreadRank, Running;
    TotalUpdate(ThreadRank, s.thr, a.t, Apply(s, a).thr[a.t]);
  }

  lemma InitRank(s: State)
    requires Init(s)
    ensures Rank(s) == 0
  {
    TotalConstant(ThreadRank, s.thr, 0);
  }

  function Productive(run: seq<State>, acts: seq<Act>, k: nat): nat
    requires |run| == |acts| + 1 && k <= |acts|
    requires forall i :: 0 <= i < |acts| ==> Enabled(run[i], acts[i])
  {
    if k == 0 then 0
    else Productive(run, acts, k - 1) + if FailedSpin(run[k - 1], acts[k - 1]) then 0 else 1
  }

  function Asked(acts: seq<Act>, k: nat): nat
    requires k <= |acts|
  {
    if k == 0 then 0 else Asked(acts, k - 1) + Price(acts[k - 1].c)
  }

  /** All steps but failed spins, of all threads together, are at most nine for each once call and one for
      each write of an init, however they are scheduled and however deep the calls nest. */
  lemma {:induction false} WorkIsBounded(run: seq<State>, acts: seq<Act>, k: nat)
    requires IsRun(run, acts) && k <= |acts|
    ensures Productive(run, acts, k) + Rank(run[k]) <= Asked(acts, k)
  {
    hide Inv, Init, Apply, Enabled, Rank, FailedSpin, Price;
    if k == 0 {
      InitRank(run[0]);
    } else {
      WorkIsBounded(run, acts, k - 1);
      RunKeepsInv(run, acts);
      StepRank(run[k - 1], acts[k - 1]);
    }
  }
}
