/** The recursive mutex, running on the Windows mutex, running on a recursive CRITICAL_SECTION.

    `_thread_id` is read without the lock, so it is a modification order in which a thread may read
    any message not older than what it has seen. The critical section hands the view of its last
    holder to the next one. The whole stack is shown to refine an atomic reentrant lock. */
module RecursiveMutex {
  import opened Words
  import opened ThreadIds
  import W = WindowsMutex

  datatype Op = Lock | TryLock | Unlock

  datatype PC =
    | Idle
    | LockReadId | LockMutex | LockAssert
    | UnlockAssert | UnlockDecrement | UnlockClearId | UnlockMutex
    | TryReadId | TryMutex
    | WriteId(op: Op) | Increment(op: Op)   // shared tail of lock and trylock
    | Returning(op: Op, rc: int)
    | AssertFailed

  /** held: the client's own account, successful lock and trylock returns less unlock calls. */
  datatype Thread = Thread(pc: PC, view: nat, held: nat)

  /** released: what the last thread to leave the critical section had seen of `_thread_id`. */
  datatype State = State(w: W.State, tid: seq<Word>, released: nat, depth: int, thr: seq<Thread>)

  datatype Choice = Call(op: Op) | Go(i: nat) | Return

  datatype Act = Act(t: nat, c: Choice)

  predicate InMutexCall(pc: PC) {
    pc.LockMutex? || pc.UnlockMutex? || pc.TryMutex?
  }

  predicate MayRead(s: State, t: nat, i: nat)
    requires t < |s.thr|
  {
    s.thr[t].view <= i < |s.tid|
  }

  /** The client unlocks only what its own account says it holds. */
  predicate Enabled(s: State, a: Act) {
    && a.t < |s.thr| == |s.w.thr| == |s.w.ids|
    && match s.thr[a.t].pc
       case Idle =>
         && a.c.Call?
         && (a.c.op.Unlock? ==> s.thr[a.t].held > 0)
         && s.w.thr[a.t].pc.Idle?
       case LockReadId => a.c.Go? && MayRead(s, a.t, a.c.i)
       case TryReadId => a.c.Go? && MayRead(s, a.t, a.c.i)
       case LockAssert => a.c.Go? && MayRead(s, a.t, a.c.i)
       case UnlockAssert => a.c.Go? && MayRead(s, a.t, a.c.i)
       case LockMutex => a.c.Go? && !s.w.thr[a.t].pc.Idle? && W.Enabled(s.w, W.Act(a.t, W.Go(a.c.i)))
       case TryMutex => a.c.Go? && !s.w.thr[a.t].pc.Idle? && W.Enabled(s.w, W.Act(a.t, W.Go(a.c.i)))
       case UnlockMutex => a.c.Go? && !s.w.thr[a.t].pc.Idle? && W.Enabled(s.w, W.Act(a.t, W.Go(a.c.i)))
       case Returning(_, _) => a.c.Return?
       case AssertFailed => false
       case _ => a.c.Go?
  }

  function SetPC(s: State, t: nat, pc: PC): State
    requires t < |s.thr|
  {
    s.(thr := s.thr[t := s.thr[t].(pc := pc)])
  }

  function ReadTo(s: State, t: nat, i: nat, pc: PC): State
    requires t < |s.thr|
  {
    s.(thr := s.thr[t := s.thr[t].(pc := pc, view := i)])
  }

  function WriteTo(s: State, t: nat, value: Word, pc: PC): State
    requires t < |s.thr|
  {
    s.(tid := s.tid + [value], thr := s.thr[t := s.thr[t].(pc := pc, view := |s.tid|)])
  }

  /** Calls into the Windows mutex: t starts the operation there. */
  function Begin(s: State, t: nat, c: W.Choice, pc: PC): State
    requires t < |s.thr| == |s.w.thr| == |s.w.ids|
  {
    if W.Enabled(s.w, W.Act(t, c)) then SetPC(s, t, pc).(w := W.Apply(s.w, W.Act(t, c)))
    else SetPC(s, t, AssertFailed)
  }

  /** One access inside the Windows mutex. Entering the section joins the released view, leaving it
      releases the leaver's; when the call is over the caller carries on. */
  function Inside(s: State, t: nat, i: nat): State
    requires t < |s.thr| == |s.w.thr| == |s.w.ids|
    requires W.Enabled(s.w, W.Act(t, W.Go(i)))
  {
    var w' := W.Apply(s.w, W.Act(t, W.Go(i)));
    var entered := !W.Holds(s.w, t) && W.Holds(w', t);
    var left := W.Holds(s.w, t) && !W.Holds(w', t);
    var view := if entered && s.released > s.thr[t].view then s.released else s.thr[t].view;
    var pc := if !w'.thr[t].pc.Idle? then s.thr[t].pc
              else match s.thr[t].pc
                   case LockMutex => LockAssert
                   case TryMutex => if w'.thr[t].pc.rc != 0 then Returning(TryLock, -1) else WriteId(TryLock)
                   case _ => Returning(Unlock, 0);
    State(w', s.tid, if left then s.thr[t].view else s.released, s.depth,
          s.thr[t := s.thr[t].(pc := pc, view := view)])
  }

  function Apply(s: State, a: Act): State
    requires Enabled(s, a)
  {
    var t, th, self := a.t, s.thr[a.t], Id(s.w.ids, a.t);
    match th.pc
    case Idle =>
      (match a.c.op
       case Lock => SetPC(s, t, LockReadId)
       case TryLock => SetPC(s, t, TryReadId)
       case Unlock => s.(thr := s.thr[t := th.(pc := UnlockAssert, held := th.held - 1)]))
    case LockReadId =>
      var s' := ReadTo(s, t, a.c.i, Increment(Lock));
      if s.tid[a.c.i] == self then s' else Begin(s', t, W.CallLock, LockMutex)
    case LockMutex => Inside(s, t, a.c.i)
    case LockAssert => ReadTo(s, t, a.c.i, if s.tid[a.c.i] == 0 then WriteId(Lock) else AssertFailed)
    case WriteId(op) => WriteTo(s, t, self, Increment(op))
    case Increment(op) => SetPC(s, t, Returning(op, 0)).(depth := s.depth + 1)
    case UnlockAssert => ReadTo(s, t, a.c.i, if s.tid[a.c.i] == self then UnlockDecrement else AssertFailed)
    case UnlockDecrement =>
      SetPC(s, t, if s.depth > 1 then Returning(Unlock, 0) else UnlockClearId).(depth := s.depth - 1)
    case UnlockClearId =>
      Begin(WriteTo(s, t, 0, UnlockMutex), t, W.CallUnlock, UnlockMutex)
    case UnlockMutex => Inside(s, t, a.c.i)
    case TryReadId =>
      var s' := ReadTo(s, t, a.c.i, Increment(TryLock));
      if s.tid[a.c.i] == self then s' else Begin(s', t, W.CallTryLock, TryMutex)
    case TryMutex => Inside(s, t, a.c.i)
    case Returning(op, rc) =>
      s.(thr := s.thr[t := th.(pc := Idle, held := if op.Unlock? || rc != 0 then th.held else th.held + 1)])
  }

  ghost predicate Init(s: State) {
    && W.Init(s.w) && |s.thr| == |s.w.thr|
    && s.tid == [0] && s.released == 0 && s.depth == 0
    && forall t :: 0 <= t < |s.thr| ==> s.thr[t] == Thread(Idle, 0, 0)
  }

  ghost predicate IsRun(run: seq<State>, acts: seq<Act>) {
    && |run| == |acts| + 1
    && Init(run[0])
    && forall k :: 0 <= k < |acts| ==> Enabled(run[k], acts[k]) && run[k + 1] == Apply(run[k], acts[k])
  }

  // ---- the invariant ----

  /** Program points at which a holder has its id in `_thread_id`. */
  predicate Published(pc: PC) {
    pc.Idle? || pc.LockReadId? || pc.TryReadId? || pc.Increment? || pc.Returning?
    || pc.UnlockAssert? || pc.UnlockDecrement? || pc.UnlockClearId?
  }

  predicate Owns(s: State, t: nat)
    requires t < |s.thr|
  {
    W.Holds(s.w, t) && Published(s.thr[t].pc)
  }

  /** What the program point says about holding the section and about the Windows mutex call. */
  predicate Placed(holds: bool, pc: PC, wpc: W.PC) {
    && (!InMutexCall(pc) ==> wpc.Idle?)
    && match pc
       case LockMutex => (wpc.LockRead? && !holds) || (wpc.LockEnter? && !holds) || (wpc.LockWrite? && holds)
       case TryMutex => (wpc.TryRead? && !holds) || (wpc.TryEnter? && !holds) || (wpc.TryWrite? && holds)
       case UnlockMutex => holds && (wpc.UnlockAssert? || wpc.UnlockClear? || wpc.UnlockLeave?)
       case LockAssert => holds
       case WriteId(op) => holds && !op.Unlock?
       case Increment(op) => holds && !op.Unlock?
       case UnlockAssert => holds
       case UnlockDecrement => holds
       case UnlockClearId => holds
       case Returning(op, rc) =>
         && (rc == 0 || (op.TryLock? && rc == -1 && !holds))
         && (!op.Unlock? && rc == 0 ==> holds)
       case AssertFailed => false
       case _ => true
  }

  /** The depth the holder's program point and client account call for. */
  function DueDepth(th: Thread): nat {
    match th.pc
    case Returning(op, _) => if op.Unlock? then th.held else th.held + 1
    case UnlockAssert => th.held + 1
    case UnlockDecrement => th.held + 1
    case _ => th.held
  }

  predicate FirstEntry(pc: PC) {
    pc.LockMutex? || pc.TryMutex? || pc.LockAssert? || pc.WriteId? || pc.UnlockClearId? || pc.UnlockMutex?
  }

  ghost predicate ThreadInv(s: State, t: nat) {
    && t < |s.thr| == |s.w.thr| == |s.w.ids| && |s.tid| > 0
    && var th, holds := s.thr[t], W.Holds(s.w, t);
    && th.view < |s.tid|
    && Placed(holds, th.pc, s.w.thr[t].pc)
    && (holds ==> th.view == |s.tid| - 1 && s.depth == DueDepth(th))
    && (holds && FirstEntry(th.pc) ==> th.held == 0)
    && (holds && (th.pc.Idle? || th.pc.LockReadId? || th.pc.TryReadId?) ==> th.held > 0)
    && (holds && th.pc.Returning? && th.pc.op.Unlock? ==> th.held > 0)
    && (!holds ==> th.held == 0)
    && (if Owns(s, t) then s.tid[th.view] == Id(s.w.ids, t)
        else forall i :: th.view <= i < |s.tid| ==> s.tid[i] != Id(s.w.ids, t))
  }

  /** The part of the invariant that is about no single thread. */
  ghost predicate SharedInv(s: State) {
    && W.Inv(s.w) && |s.thr| == |s.w.thr| && |s.tid| > 0
    && (s.w.section.Free? ==> s.released == |s.tid| - 1 && s.depth == 0)
    && s.tid[|s.tid| - 1] ==
       if s.w.section.Held? && Owns(s, s.w.section.holder) then Id(s.w.ids, s.w.section.holder) else 0
  }

  ghost predicate Inv(s: State) {
    && SharedInv(s)
    && (forall t :: 0 <= t < |s.thr| ==> ThreadInv(s, t))
  }

  lemma InvFacts(s: State, t: nat)
    requires Inv(s) && t < |s.thr|
    ensures W.Inv(s.w) && |s.thr| == |s.w.thr| == |s.w.ids| && |s.tid| > 0 && ThreadInv(s, t)
    ensures Id(s.w.ids, t) != 0
    ensures forall u :: 0 <= u < |s.thr| && u != t ==> Id(s.w.ids, u) != Id(s.w.ids, t)
    ensures forall u :: 0 <= u < |s.thr| && u != t && W.Holds(s.w, t) ==> !W.Holds(s.w, u)
    ensures s.w.section.Free? ==> s.depth == 0
    ensures W.Holds(s.w, t) && !Owns(s, t) ==> s.tid[|s.tid| - 1] == 0
  {
    IdsAreDistinct(s.w.ids);
  }

  /** What the Windows mutex below guarantees about one of its own accesses. */
  lemma InsideFacts(w: W.State, t: nat, i: nat)
    requires W.Inv(w) && W.Enabled(w, W.Act(t, W.Go(i)))
    requires w.thr[t].pc.LockRead? || w.thr[t].pc.TryRead? ==> !W.Holds(w, t)
    ensures var w', pc := W.Apply(w, W.Act(t, W.Go(i))), w.thr[t].pc;
      && W.Inv(w') && |w'.thr| == |w.thr| && w'.ids == w.ids
      && (forall u :: 0 <= u < |w.thr| && u != t ==> w'.thr[u] == w.thr[u] && W.Holds(w', u) == W.Holds(w, u))
      && (pc.LockRead? ==> w'.thr[t].pc.LockEnter? && w'.section == w.section)
      && (pc.TryRead? ==> w'.thr[t].pc.TryEnter? && w'.section == w.section)
      && (pc.LockEnter? ==> w.section.Free? && w'.thr[t].pc.LockWrite? && w'.section == W.Held(t, 1))
      && (pc.TryEnter? && w.section.Free? ==> w'.thr[t].pc.TryWrite? && w'.section == W.Held(t, 1))
      && (pc.TryEnter? && w.section.Held? ==> w'.thr[t].pc == W.Idle(W.EBUSY) && w'.section == w.section)
      && (pc.LockWrite? || pc.TryWrite? ==> w'.thr[t].pc == W.Idle(0) && w'.section == w.section)
      && (pc.UnlockAssert? ==> w'.thr[t].pc.UnlockClear? && w'.section == w.section)
      && (pc.UnlockClear? ==> w'.thr[t].pc.UnlockLeave? && w'.section == w.section)
      && (pc.UnlockLeave? ==> w'.thr[t].pc == W.Idle(0) && w'.section == W.Free)
  {
    W.StepKeepsInv(w, W.Act(t, W.Go(i)));
    assert W.ThreadInv(w, t);
  }

  /** What a step of t leaves alone, and what it may do to the shared parts. */
  ghost predicate Effect(s: State, s': State, t: nat) {
    && t < |s.thr| == |s'.thr| == |s.w.thr| == |s'.w.thr| == |s.w.ids| && s'.w.ids == s.w.ids
    && W.Inv(s'.w)
    && (forall u :: 0 <= u < |s.thr| && u != t ==>
          s'.thr[u] == s.thr[u] && s'.w.thr[u] == s.w.thr[u] && W.Holds(s'.w, u) == W.Holds(s.w, u))
    && (s'.tid == s.tid || (W.Holds(s.w, t) && (s'.tid == s.tid + [0] || s'.tid == s.tid + [Id(s.w.ids, t)])))
    && (s'.depth == s.depth || W.Holds(s.w, t))
  }

  lemma InsideEffect(s: State, a: Act)
    requires Inv(s) && Enabled(s, a) && InMutexCall(s.thr[a.t].pc)
    ensures Effect(s, Apply(s, a), a.t)
  {
    InvFacts(s, a.t);
    InsideFacts(s.w, a.t, a.c.i);
    hide W.Inv, W.Apply, W.Enabled;
  }

  lemma StepEffect(s: State, a: Act)
    requires Inv(s) && Enabled(s, a)
    ensures Effect(s, Apply(s, a), a.t)
  {
    hide W.Inv, Inv;
    InvFacts(s, a.t);
    if InMutexCall(s.thr[a.t].pc) {
      InsideEffect(s, a);
    } else {
      forall c | W.Enabled(s.w, W.Act(a.t, c)) ensures W.Inv(W.Apply(s.w, W.Act(a.t, c))) {
        W.StepKeepsInv(s.w, W.Act(a.t, c));
      }
    }
  }

  /** A thread is unaffected when its own records, its hold on the section and, if it has one, the
      locations it guards stay put, and nobody writes its id. */
  lemma Unaffected(s: State, s': State, u: nat)
    requires u < |s.thr| == |s'.thr| == |s.w.thr| == |s'.w.thr| == |s.w.ids| && |s.tid| > 0
    requires ThreadInv(s, u) && s'.w.ids == s.w.ids
    requires s'.thr[u] == s.thr[u] && s'.w.thr[u] == s.w.thr[u] && W.Holds(s'.w, u) == W.Holds(s.w, u)
    requires W.Holds(s.w, u) ==> s'.tid == s.tid && s'.depth == s.depth
    requires s.tid <= s'.tid && forall i :: |s.tid| <= i < |s'.tid| ==> s'.tid[i] != Id(s.w.ids, u)
    ensures ThreadInv(s', u)
  {
    hide W.Holds;
  }

  lemma OthersKeepInv(s: State, a: Act, u: nat)
    requires Inv(s) && Enabled(s, a) && u < |s.thr| && u != a.t
    ensures ThreadInv(Apply(s, a), u)
  {
    hide W.Inv, W.Apply, W.Enabled, W.Holds, Apply, Enabled, Inv, ThreadInv, Id;
    InvFacts(s, u);
    StepEffect(s, a);
    Unaffected(s, Apply(s, a), u);
  }

  lemma InsideKeepsSelf(s: State, a: Act)
    requires Inv(s) && Enabled(s, a) && InMutexCall(s.thr[a.t].pc)
    ensures ThreadInv(Apply(s, a), a.t)
  {
    InvFacts(s, a.t);
    InsideFacts(s.w, a.t, a.c.i);
    hide W.Inv, W.Apply, W.Enabled;
  }

  lemma WriteKeepsSelf(s: State, a: Act)
    requires Inv(s) && Enabled(s, a) && (s.thr[a.t].pc.WriteId? || s.thr[a.t].pc.UnlockClearId?)
    ensures ThreadInv(Apply(s, a), a.t)
  {
    hide W.Inv, Inv;
    InvFacts(s, a.t);
  }

  lemma ReadKeepsSelf(s: State, a: Act)
    requires Inv(s) && Enabled(s, a) && (s.thr[a.t].pc.LockReadId? || s.thr[a.t].pc.TryReadId?)
    ensures ThreadInv(Apply(s, a), a.t)
  {
    hide W.Inv, Inv;
    InvFacts(s, a.t);
  }

  lemma SelfKeepsInv(s: State, a: Act)
    requires Inv(s) && Enabled(s, a)
    ensures ThreadInv(Apply(s, a), a.t)
  {
    hide W.Inv, Inv;
    InvFacts(s, a.t);
    if InMutexCall(s.thr[a.t].pc) {
      InsideKeepsSelf(s, a);
    } else if s.thr[a.t].pc.WriteId? || s.thr[a.t].pc.UnlockClearId? {
      WriteKeepsSelf(s, a);
    } else if s.thr[a.t].pc.LockReadId? || s.thr[a.t].pc.TryReadId? {
      ReadKeepsSelf(s, a);
    }
  }

  lemma InsideKeepsShared(s: State, a: Act)
    requires Inv(s) && Enabled(s, a) && InMutexCall(s.thr[a.t].pc)
    ensures SharedInv(Apply(s, a))
  {
    InvFacts(s, a.t);
    InsideFacts(s.w, a.t, a.c.i);
    InsideEffect(s, a);
    hide W.Inv, W.Apply, W.Enabled;
  }

  lemma SharedKeepsInv(s: State, a: Act)
    requires Inv(s) && Enabled(s, a)
    ensures SharedInv(Apply(s, a))
  {
    InvFacts(s, a.t);
    StepEffect(s, a);
    if InMutexCall(s.thr[a.t].pc) {
      InsideKeepsShared(s, a);
    } else {
      hide W.Inv;
    }
  }

  lemma StepKeepsInv(s: State, a: Act)
    requires Inv(s) && Enabled(s, a)
    ensures Inv(Apply(s, a))
  {
    hide W.Inv, Apply, ThreadInv;
    SelfKeepsInv(s, a);
    SharedKeepsInv(s, a);
    StepEffect(s, a);
    forall u | 0 <= u < |Apply(s, a).thr| ensures ThreadInv(Apply(s, a), u) {
      if u != a.t { OthersKeepInv(s, a, u); }
    }
  }

  lemma {:induction false} RunKeepsInv(run: seq<State>, acts: seq<Act>)
    requires IsRun(run, acts)
    ensures forall k :: 0 <= k < |run| ==> Inv(run[k])
  {
    if |acts| == 0 {
      IdsAreDistinct(run[0].w.ids);
      W.RunKeepsInv([run[0].w], []);
      assert W.Inv([run[0].w][0]);
    } else {
      var n := |acts|;
      RunKeepsInv(run[..n], acts[..n - 1]);
      assert Inv(run[..n][n - 1]);
      StepKeepsInv(run[n - 1], acts[n - 1]);
      assert forall k :: 0 <= k < n ==> run[k] == run[..n][k];
    }
  }

  // ---- the abstract reentrant lock: every operation takes effect at one instant ----

  datatype Status = Ready | Pending(op: Op) | Done(op: Op, rc: int)
  datatype Client = Client(status: Status, held: nat)
  datatype ALock = AFree | AHeld(owner: nat, count: nat)
  datatype Abstract = Abstract(lock: ALock, clients: seq<Client>)

  ghost predicate AInit(x: Abstract) {
    x.lock == AFree && forall t :: 0 <= t < |x.clients| ==> x.clients[t] == Client(Ready, 0)
  }

  ghost predicate ACall(x: Abstract, y: Abstract, t: nat, op: Op) {
    && t < |x.clients| && x.clients[t].status.Ready? && y.lock == x.lock
    && (op.Unlock? ==> x.clients[t].held > 0)
    && y.clients == x.clients[t := Client(Pending(op), if op.Unlock? then x.clients[t].held - 1 else x.clients[t].held)]
  }

  /** The instant an operation takes effect: what it does to the lock and what it will return. */
  ghost predicate AEffect(x: Abstract, y: Abstract, t: nat) {
    && t < |x.clients| && x.clients[t].status.Pending?
    && var op := x.clients[t].status.op;
    && var mine := x.lock.AFree? || x.lock.owner == t;
    && var count := if x.lock.AHeld? then x.lock.count else 0;
    && var rc := if op.TryLock? && !mine then -1 else 0;
    && y.clients == x.clients[t := x.clients[t].(status := Done(op, rc))]
    && match op
       case Lock => mine && y.lock == AHeld(t, count + 1)
       case TryLock => y.lock == if mine then AHeld(t, count + 1) else x.lock
       case Unlock => mine && count > 0 && y.lock == if count == 1 then AFree else AHeld(t, count - 1)
  }

  ghost predicate AReturn(x: Abstract, y: Abstract, t: nat) {
    && t < |x.clients| && x.clients[t].status.Done? && y.lock == x.lock
    && var c := x.clients[t];
    && y.clients == x.clients[t := Client(Ready, if c.status.op.Unlock? || c.status.rc != 0 then c.held
            else c.held + 1)]
  }

  ghost predicate AStep(x: Abstract, a: Act, y: Abstract) {
    match a.c
    case Call(op) => ACall(x, y, a.t, op)
    case Return => AReturn(x, y, a.t)
    case Go(_) => x == y || AEffect(x, y, a.t)
  }

  // ---- the refinement ----

  /** Has thread t's operation taken effect yet? The outermost acquisition takes effect when the section
      is entered, a nested one with its increment, an inner unlock with its decrement and the outermost
      unlock when the section is left. */
  function StatusOf(depth: int, pc: PC, wpc: W.PC): Status {
    match pc
    case Idle => Ready
    case LockReadId => Pending(Lock)
    case LockMutex => if wpc.LockWrite? then Done(Lock, 0) else Pending(Lock)
    case LockAssert => Done(Lock, 0)
    case WriteId(op) => Done(op, 0)
    case Increment(op) => if depth == 0 then Done(op, 0) else Pending(op)
    case UnlockAssert => Pending(Unlock)
    case UnlockDecrement => Pending(Unlock)
    case UnlockClearId => Pending(Unlock)
    case UnlockMutex => Pending(Unlock)
    case TryReadId => Pending(TryLock)
    case TryMutex => if wpc.TryWrite? then Done(TryLock, 0) else Pending(TryLock)
    case Returning(op, rc) => Done(op, rc)
    case AssertFailed => Ready
  }

  function LockOf(section: W.Section, depth: int): ALock {
    if section.Free? then AFree else AHeld(section.holder, if depth > 1 then depth else 1)
  }

  ghost function Abs(s: State): Abstract
    requires |s.thr| == |s.w.thr|
  {
    Abstract(LockOf(s.w.section, s.depth),
             seq(|s.thr|, i requires 0 <= i < |s.thr| =>
               Client(StatusOf(s.depth, s.thr[i].pc, s.w.thr[i].pc), s.thr[i].held)))
  }

  /** Only thread t's entry of the abstract state can change in a step of t. */
  lemma OnlySelfMoves(s: State, a: Act)
    requires Inv(s) && Enabled(s, a)
    ensures var s', t := Apply(s, a), a.t;
      && |s.thr| == |s.w.thr| && |s'.thr| == |s'.w.thr|
      && t < |s.thr| == |s'.thr|
      && Abs(s').clients == Abs(s).clients[t := Client(StatusOf(s'.depth, s'.thr[t].pc, s'.w.thr[t].pc),
          s'.thr[t].held)]
  {
    hide W.Inv, W.Apply, W.Enabled, W.Holds, Apply, Enabled, Inv;
    StepEffect(s, a);
    var s' := Apply(s, a);
    forall u | 0 <= u < |s.thr| && u != a.t
      ensures StatusOf(s'.depth, s'.thr[u].pc, s'.w.thr[u].pc) == StatusOf(s.depth, s.thr[u].pc, s.w.thr[u].pc)
    {
      InvFacts(s, u);
    }
  }

  lemma InsideRefines(s: State, a: Act)
    requires Inv(s) && Enabled(s, a) && InMutexCall(s.thr[a.t].pc)
    ensures |s.thr| == |s.w.thr| && |Apply(s, a).thr| == |Apply(s, a).w.thr|
    ensures AStep(Abs(s), a, Abs(Apply(s, a)))
  {
    hide W.Inv, Inv;
    InvFacts(s, a.t);
    OnlySelfMoves(s, a);
    InsideFacts(s.w, a.t, a.c.i);
    hide W.Apply, W.Enabled;
    var x, y, t := Abs(s), Abs(Apply(s, a)), a.t;
    if y.clients[t] == x.clients[t] {
      assert x.clients[t := x.clients[t]] == x.clients;
    }
  }

  lemma CallRefines(s: State, a: Act)
    requires Inv(s) && Enabled(s, a) && (s.thr[a.t].pc.Idle? || s.thr[a.t].pc.Returning?)
    ensures |s.thr| == |s.w.thr| && |Apply(s, a).thr| == |Apply(s, a).w.thr|
    ensures AStep(Abs(s), a, Abs(Apply(s, a)))
  {
    hide W.Inv, Inv;
    InvFacts(s, a.t);
    OnlySelfMoves(s, a);
  }

  lemma StepRefines(s: State, a: Act)
    requires Inv(s) && Enabled(s, a)
    ensures |s.thr| == |s.w.thr| && |Apply(s, a).thr| == |Apply(s, a).w.thr|
    ensures AStep(Abs(s), a, Abs(Apply(s, a)))
  {
    if InMutexCall(s.thr[a.t].pc) {
      InsideRefines(s, a);
    } else if s.thr[a.t].pc.Idle? || s.thr[a.t].pc.Returning? {
      CallRefines(s, a);
    } else if s.thr[a.t].pc.Increment? || s.thr[a.t].pc.UnlockDecrement? {
      CountingRefines(s, a);
    } else {
      hide W.Inv, Inv, ACall, AReturn, AEffect;
      InvFacts(s, a.t);
      OnlySelfMoves(s, a);
      var x, t := Abs(s), a.t;
      assert x.clients[t := x.clients[t]] == x.clients;
    }
  }

  lemma CountingRefines(s: State, a: Act)
    requires Inv(s) && Enabled(s, a) && (s.thr[a.t].pc.Increment? || s.thr[a.t].pc.UnlockDecrement?)
    ensures |s.thr| == |s.w.thr| && |Apply(s, a).thr| == |Apply(s, a).w.thr|
    ensures AStep(Abs(s), a, Abs(Apply(s, a)))
  {
    hide W.Inv, Inv, ACall, AReturn;
    InvFacts(s, a.t);
    OnlySelfMoves(s, a);
    var x, y, t := Abs(s), Abs(Apply(s, a)), a.t;
    if y.clients[t] == x.clients[t] {
      assert x.clients[t := x.clients[t]] == x.clients;
    }
  }

  // ---- what callers may rely on, in every run ----

  /** Every run is, action by action and with the same results, a run of the atomic reentrant lock. */
  lemma RefinesReentrantLock(run: seq<State>, acts: seq<Act>)
    requires IsRun(run, acts)
    ensures forall k :: 0 <= k < |run| ==> |run[k].thr| == |run[k].w.thr|
    ensures AInit(Abs(run[0]))
    ensures forall k :: 0 <= k < |acts| ==> AStep(Abs(run[k]), acts[k], Abs(run[k + 1]))
  {
    RunKeepsInv(run, acts);
    assert Inv(run[0]);
    assert forall k :: 0 <= k < |run| ==> Inv(run[k]) && |run[k].thr| == |run[k].w.thr|;
    hide Inv, AStep, Apply;
    forall k | 0 <= k < |acts| ensures AStep(Abs(run[k]), acts[k], Abs(run[k + 1])) {
      assert Inv(run[k]);
      StepRefines(run[k], acts[k]);
    }
  }

  /** No assertion fires and the Windows mutex never finds its caller re-entering; a client that counts
      itself in excludes all others; and the unlocked read of `_thread_id`, however stale, shows a
      thread its own id exactly when by the client's account it holds the lock. */
  lemma LockSafety(run: seq<State>, acts: seq<Act>, k: nat)
    requires IsRun(run, acts) && k < |run|
    ensures var s := run[k];
      && |s.thr| == |s.w.thr| == |s.w.ids|
      && (forall t :: 0 <= t < |s.thr| ==>
            !s.thr[t].pc.AssertFailed? && !s.w.thr[t].pc.AssertFailed? && !s.w.thr[t].pc.SelfDeadlock?)
      && (forall t, u :: 0 <= t < |s.thr| && 0 <= u < |s.thr| && s.thr[t].held > 0 && s.thr[u].held > 0 ==> t == u)
      && (forall t, i: nat ::
            0 <= t < |s.thr| && MayRead(s, t, i) && (s.thr[t].pc.LockReadId? || s.thr[t].pc.TryReadId?) ==>
            (s.tid[i] == Id(s.w.ids, t) <==> s.thr[t].held > 0))
  {
    RunKeepsInv(run, acts);
    var s := run[k];
    assert Inv(s);
    hide W.Inv, Inv;
    forall t, i: nat | 0 <= t < |s.thr| && MayRead(s, t, i) && (s.thr[t].pc.LockReadId? || s.thr[t].pc.TryReadId?)
      ensures s.tid[i] == Id(s.w.ids, t) <==> s.thr[t].held > 0
    {
      InvFacts(s, t);
    }
    forall t, u | 0 <= t < |s.thr| && 0 <= u < |s.thr| && s.thr[t].held > 0 && s.thr[u].held > 0 ensures t == u {
      InvFacts(s, t);
      InvFacts(s, u);
    }
    forall t | 0 <= t < |s.thr|
      ensures !s.thr[t].pc.AssertFailed? && !s.w.thr[t].pc.AssertFailed? && !s.w.thr[t].pc.SelfDeadlock?
    {
      InvFacts(s, t);
    }
  }

  /** t wants to enter the section while another thread is in it. */
  predicate HeldUp(s: State, t: nat) {
    && t < |s.thr| == |s.w.thr| && s.thr[t].pc.LockMutex? && s.w.thr[t].pc.LockEnter?
    && s.w.section.Held? && s.w.section.holder != t
  }

  lemma CanStepUnlessHeldUp(s: State, t: nat)
    requires Inv(s) && t < |s.thr| && !s.thr[t].pc.Idle? && !s.thr[t].pc.Returning?
    ensures |s.w.thr| == |s.thr|
    ensures Enabled(s, Act(t, Go(if InMutexCall(s.thr[t].pc) then s.w.thr[t].view else s.thr[t].view))) <==>
      !HeldUp(s, t)
    ensures HeldUp(s, t) ==> s.thr[t].held == 0
  {
    InvFacts(s, t);
    assert W.ThreadInv(s.w, t);
  }

  /** An operation in progress can always take its next step, except that an outermost lock waits while
      another thread has the section. */
  lemma WaitsOnlyForTheHolder(run: seq<State>, acts: seq<Act>, k: nat, t: nat)
    requires IsRun(run, acts) && k < |run| && t < |run[k].thr| && !run[k].thr[t].pc.Idle?
    ensures (exists c :: Enabled(run[k], Act(t, c))) || (HeldUp(run[k], t) && run[k].thr[t].held == 0)
  {
    RunKeepsInv(run, acts);
    var s := run[k];
    assert Inv(s);
    if s.thr[t].pc.Returning? {
      InvFacts(s, t);
      assert Enabled(s, Act(t, Return));
    } else {
      CanStepUnlessHeldUp(s, t);
    }
  }
}
