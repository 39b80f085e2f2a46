/** The one pass over the destructor table that a thread makes when it ends. Destructors are arbitrary:
    `effect` says what one does to the thread's slots, and it may set any of them. */
module DestructorRun {
  import opened Words
  import opened TssSpec
  import DestructorTable

  type Slots = map<Dword, int>

  type Effect = (Dtor, int, Slots) -> Slots

  /** TlsGetValue: NULL unless set. */
  function Get(tls: Slots, key: Dword): int {
    if key in tls then tls[key] else 0
  }

  /** One destructor call: the table position it is made for, the destructor, its argument, and the slots when
      it was entered and left. */
  datatype DtorCall = DtorCall(pos: nat, f: Dtor, value: int, before: Slots, after: Slots)

  datatype Outcome = Outcome(tls: Slots, log: seq<DtorCall>)

  /** Does the pass call a destructor at this entry? */
  predicate Fires(e: Entry, tls: Slots) {
    e.f != 0 && Get(tls, e.key) != 0
  }

  function CallAt(es: seq<Entry>, p: nat, tls: Slots, effect: Effect): DtorCall
    requires p < |es|
  {
    var value, before := Get(tls, es[p].key), tls[es[p].key := 0];
    DtorCall(p, es[p].f, value, before, effect(es[p].f, value, before))
  }

  function PassFrom(es: seq<Entry>, p: nat, tls: Slots, effect: Effect): Outcome
    requires p <= |es|
    decreases |es| - p
  {
    if p == |es| then Outcome(tls, [])
    else if Fires(es[p], tls) then
      var c := CallAt(es, p, tls, effect);
      var rest := PassFrom(es, p + 1, c.after, effect);
      Outcome(rest.tls, [c] + rest.log)
    else PassFrom(es, p + 1, tls, effect)
  }

  /** destructor_table_execute_destructors */
  method ExecuteDestructors(table: DestructorTable.Table?, tls: Slots, effect: Effect)
    returns (tls': Slots, log: seq<DtorCall>)
    requires table != null ==> table.Valid()
    ensures table == null ==> tls' == tls && log == []
    ensures table != null ==> Outcome(tls', log) == PassFrom(table.Contents(), 0, tls, effect)
  {
    tls', log := tls, [];
    if table == null {
      return;
    }
    ghost var es := table.Contents();
    var p := 0;
    while p < table.n
      invariant 0 <= p <= table.n
      invariant PassFrom(es, 0, tls, effect) ==
                Outcome(PassFrom(es, p, tls', effect).tls, log + PassFrom(es, p, tls', effect).log)
    {
      var e := table.entries[p];
      assert e == es[p];
      if e.f != 0 {
        var value := Get(tls', e.key);
        if value != 0 {
          var before := tls'[e.key := 0];
          var after := effect(e.f, value, before);
          var c := DtorCall(p, e.f, value, before, after);
          assert forall rest :: log + ([c] + rest) == (log + [c]) + rest;
          tls', log := after, log + [c];
        }
      }
      p := p + 1;
    }
  }

  /** The slots just before the j-th call picked its value out. */
  function Before(tls: Slots, log: seq<DtorCall>, j: nat): Slots
    requires j <= |log|
  {
    if j == 0 then tls else log[j - 1].after
  }

  /** The j-th call is of the destructor of a live entry, with the non-NULL value that the entry's slot then
      held, finds that slot already NULL and all others as they were, and leaves the slots as the destructor
      makes them; the calls follow the table. */
  predicate GoodCall(es: seq<Entry>, p: nat, tls: Slots, log: seq<DtorCall>, effect: Effect, j: nat) {
    && j < |log| && p <= log[j].pos < |es|
    && (j > 0 ==> log[j - 1].pos < log[j].pos)
    && var e, c, slots := es[log[j].pos], log[j], Before(tls, log, j);
    && c.f == e.f != 0
    && c.value == Get(slots, e.key) != 0
    && Get(c.before, e.key) == 0 && (forall key :: key != e.key ==> Get(c.before, key) == Get(slots, key))
    && c.after == effect(c.f, c.value, c.before)
  }

  lemma GoodCallAfter(es: seq<Entry>, p: nat, tls: Slots, c: DtorCall, rest: seq<DtorCall>, effect: Effect, j: nat)
    requires j < |rest| && GoodCall(es, p + 1, c.after, rest, effect, j) && c.pos == p
    ensures GoodCall(es, p, tls, [c] + rest, effect, j + 1)
  {
    assert Before(tls, [c] + rest, j + 1) == Before(c.after, rest, j);
  }

  /** The pass ends after at most one call per entry, in table order, and only the calls change slots. */
  lemma {:induction false} CallsAreInOrder(es: seq<Entry>, p: nat, tls: Slots, effect: Effect)
    requires p <= |es|
    ensures var r := PassFrom(es, p, tls, effect);
      && |r.log| <= |es| - p
      && (forall j :: 0 <= j < |r.log| ==> GoodCall(es, p, tls, r.log, effect, j))
      && r.tls == Before(tls, r.log, |r.log|)
    decreases |es| - p
  {
    if p == |es| {
    } else {
      var r := PassFrom(es, p, tls, effect);
      var next := if Fires(es[p], tls) then CallAt(es, p, tls, effect).after else tls;
      CallsAreInOrder(es, p + 1, next, effect);
      var rest := PassFrom(es, p + 1, next, effect);
      hide GoodCall;
      if Fires(es[p], tls) {
        var c := CallAt(es, p, tls, effect);
        forall j | 0 <= j < |r.log| ensures GoodCall(es, p, tls, r.log, effect, j) {
          if j == 0 { FirstIsGood(es, p, tls, rest.log, effect); }
                  else { GoodCallAfter(es, p, tls, c, rest.log, effect, j - 1); }
        }
      } else {
        forall j | 0 <= j < |r.log| ensures GoodCall(es, p, tls, r.log, effect, j) {
          GoodEarlier(es, p, tls, r.log, effect, j);
        }
      }
    }
  }

  /** Nobody is skipped. An entry between two calls, before the first or behind the last one has no destructor,
      or its slot was NULL when its turn came. */
  lemma {:induction false} NobodyIsSkipped(es: seq<Entry>, p: nat, tls: Slots, effect: Effect, j: nat, q: nat)
    requires p <= q < |es| && j <= |PassFrom(es, p, tls, effect).log|
    requires var log := PassFrom(es, p, tls, effect).log;
      (j > 0 ==> log[j - 1].pos < q) && (j < |log| ==> q < log[j].pos)
    ensures es[q].f == 0 || Get(Before(tls, PassFrom(es, p, tls, effect).log, j), es[q].key) == 0
    decreases |es| - p
  {
    LogOf(es, p, tls, effect);
    var log, c := PassFrom(es, p, tls, effect).log, CallAt(es, p, tls, effect);
    PositionsFrom(es, p, tls, effect);
    if Fires(es[p], tls) {
      assert log == [c] + PassFrom(es, p + 1, c.after, effect).log && c.pos == p;
      if j > 0 {
        NobodyIsSkipped(es, p + 1, c.after, effect, j - 1, q);
      }
    } else {
      PositionsFrom(es, p + 1, tls, effect);
      if p < q {
        NobodyIsSkipped(es, p + 1, tls, effect, j, q);
      }
    }
  }

  lemma PositionsFrom(es: seq<Entry>, p: nat, tls: Slots, effect: Effect)
    requires p <= |es|
    ensures var log := PassFrom(es, p, tls, effect).log; forall k :: 0 <= k < |log| ==> p <= log[k].pos < |es|
  {
    var log := PassFrom(es, p, tls, effect).log;
    CallsAreInOrder(es, p, tls, effect);
    forall k | 0 <= k < |log| ensures p <= log[k].pos < |es| {
      assert GoodCall(es, p, tls, log, effect, k);
    }
  }

  lemma FirstIsGood(es: seq<Entry>, p: nat, tls: Slots, rest: seq<DtorCall>, effect: Effect)
    requires p < |es| && Fires(es[p], tls)
    ensures GoodCall(es, p, tls, [CallAt(es, p, tls, effect)] + rest, effect, 0)
  {
  }

  lemma GoodEarlier(es: seq<Entry>, p: nat, tls: Slots, log: seq<DtorCall>, effect: Effect, j: nat)
    requires GoodCall(es, p + 1, tls, log, effect, j)
    ensures GoodCall(es, p, tls, log, effect, j)
  {
  }

  /** One of the calls from position p on set the slot from NULL. */
  ghost predicate SetFrom(log: seq<DtorCall>, p: nat, key: Dword) {
    exists j :: 0 <= j < |log| && log[j].pos >= p && Get(log[j].before, key) == 0 && Get(log[j].after, key) != 0
  }

  lemma SetBefore(log: seq<DtorCall>, p: nat, q: nat, key: Dword, c: DtorCall)
    requires SetFrom(log, p, key) && q <= p
    ensures SetFrom(log, q, key) && SetFrom([c] + log, q, key)
  {
    var j :| 0 <= j < |log| && log[j].pos >= p && Get(log[j].before, key) == 0 && Get(log[j].after, key) != 0;
    assert ([c] + log)[j + 1] == log[j];
  }

  /** A live entry's slot that ends non-NULL was set, from NULL, by a destructor at its own position or a
      later one. */
  lemma {:induction false} LeftoversWereWrittenLater(es: seq<Entry>, p: nat, tls: Slots, effect: Effect, q: nat)
    requires p <= q < |es| && es[q].f != 0
    ensures var r, key := PassFrom(es, p, tls, effect), es[q].key;
      Get(r.tls, key) != 0 ==> SetFrom(r.log, q, key)
    decreases |es| - p
  {
    var r, key, c := PassFrom(es, p, tls, effect), es[q].key, CallAt(es, p, tls, effect);
    var next := if Fires(es[p], tls) then c.after else tls;
    var rest := PassFrom(es, p + 1, next, effect);
    if p == q && Get(next, key) != 0 {
      assert r.log[0].pos == q && Get(r.log[0].before, key) == 0;
    } else {
      if p < q {
        LeftoversWereWrittenLater(es, p + 1, next, effect, q);
      } else {
        SetsAreLogged(es, p + 1, next, effect, key);
      }
      hide PassFrom, CallAt, SetFrom;
      if SetFrom(rest.log, if p < q then q else p + 1, key) { SetBefore(rest.log, if p < q then q
              else p + 1, q, key, c); }
      LogOf(es, p, tls, effect);
    }
  }

  lemma LogOf(es: seq<Entry>, p: nat, tls: Slots, effect: Effect)
    requires p < |es|
    ensures var r, fires, c := PassFrom(es, p, tls, effect), Fires(es[p], tls), CallAt(es, p, tls, effect);
      var rest := PassFrom(es, p + 1, if fires then c.after else tls, effect);
      r.tls == rest.tls && r.log == if fires then [c] + rest.log else rest.log
  {
  }

  /** A slot that is NULL and ends non-NULL was set by one of the calls. */
  lemma {:induction false} SetsAreLogged(es: seq<Entry>, p: nat, tls: Slots, effect: Effect, key: Dword)
    requires p <= |es| && Get(tls, key) == 0
    ensures var r := PassFrom(es, p, tls, effect);
      Get(r.tls, key) != 0 ==> SetFrom(r.log, p, key)
    decreases |es| - p
  {
    if p == |es| {
    } else {
      var r, c := PassFrom(es, p, tls, effect), CallAt(es, p, tls, effect);
      var next := if Fires(es[p], tls) then c.after else tls;
      if Get(next, key) != 0 {
        assert r.log[0].pos == p && Get(r.log[0].before, key) == 0;
      } else {
        SetsAreLogged(es, p + 1, next, effect, key);
        var rest := PassFrom(es, p + 1, next, effect);
        if SetFrom(rest.log, p + 1, key) { SetBefore(rest.log, p + 1, p, key, c); }
        LogOf(es, p, tls, effect);
      }
    }
  }

  /** If destructors leave the slots alone, every slot with a destructor ends NULL and all others keep
      their values. */
  lemma {:induction false} QuietPassClears(es: seq<Entry>, p: nat, tls: Slots, effect: Effect, key: Dword)
    requires p <= |es|
    requires forall f, v, t :: effect(f, v, t) == t
    ensures Get(PassFrom(es, p, tls, effect).tls, key) ==
      if exists q :: p <= q < |es| && es[q].f != 0 && es[q].key == key then 0 else Get(tls, key)
    decreases |es| - p
  {
    if p == |es| {
    } else {
      var next := if Fires(es[p], tls) then CallAt(es, p, tls, effect).after else tls;
      QuietPassClears(es, p + 1, next, effect, key);
      assert es[p].f != 0 && es[p].key == key ==> Get(next, key) == 0;
      assert !(es[p].f != 0 && es[p].key == key) ==> Get(next, key) == Get(tls, key);
    }
  }

  // ---- a thread ends after any history of keys ----

  /** mulle_thread_windows_destroy_tss_if_needed */
  method DestroyTssIfNeeded(g: DestructorTable.Global, tls: Slots, effect: Effect)
    returns (tls': Slots, log: seq<DtorCall>)
    requires g.Valid()
    ensures Outcome(tls', log) == PassFrom(g.Model().entries, 0, tls, effect)
  {
    tls', log := tls, [];
    if g.inited >= 2 {
      tls', log := ExecuteDestructors(g.table, tls, effect);
    }
  }

  predicate Clean(es: seq<Entry>) {
    forall i :: 0 <= i < |es| && es[i].key == 0 ==> es[i].f == 0
  }

  lemma {:induction false} RemovedIsClean(es: seq<Entry>, key: Dword)
    requires Clean(es)
    ensures Clean(Removed(es, key))
  {
    if |es| == 0 {
    } else {
      assert forall i :: 0 <= i < |es| - 1 ==> es[1..][i] == es[i + 1];
      RemovedIsClean(es[1..], key);
    }
  }

  lemma {:induction false} TableIsClean(calls: seq<Call>)
    requires Legal(calls)
    ensures Clean(After(calls).entries)
  {
    if |calls| == 0 {
    } else {
      var n := |calls| - 1;
      LegalPrefix(calls, n);
      TableIsClean(calls[..n]);
      if calls[n].Free? { RemovedIsClean(After(calls[..n]).entries, calls[n].key); }
    }
  }

  lemma {:induction false} LiveComesFrom(es: seq<Entry>, e: Entry) returns (q: nat)
    requires e in Live(es)
    ensures q < |es| && es[q] == e
  {
    if es[0].key != 0 && es[0] == e {
      q := 0;
    } else {
      q := LiveComesFrom(es[1..], e);
      q := q + 1;
    }
  }

  /** The entries that the pass can call are those of the keys in use, and all of them. */
  lemma EntriesAreKeysInUse(calls: seq<Call>, e: Entry)
    requires Legal(calls)
    ensures (e in After(calls).entries && e.f != 0) <==> (e in InUse(calls) && e.f != 0)
  {
    var es := After(calls).entries;
    HistoryDeterminesTss(calls);
    WithDestructorKeeps(InUse(calls));
    TableIsClean(calls);
    if e in es && e.f != 0 {
      var q: nat :| q < |es| && es[q] == e;
      LiveHas(es, q);
    }
    if e in InUse(calls) && e.f != 0 {
      var q := LiveComesFrom(es, e);
    }
  }

  /** After any history, the end of a thread calls destructors of keys in use only, each the one its key was
      created with, on the value its own key's slot held. */
  lemma CallsAreOfKeysInUse(calls: seq<Call>, tls: Slots, effect: Effect, j: nat)
    requires Legal(calls) && j < |PassFrom(After(calls).entries, 0, tls, effect).log|
    ensures var es, log := After(calls).entries, PassFrom(After(calls).entries, 0, tls, effect).log;
      && log[j].pos < |es| && es[log[j].pos] in InUse(calls)
      && log[j].f == es[log[j].pos].f
      && log[j].value == Get(Before(tls, log, j), es[log[j].pos].key) != 0
      && Get(log[j].before, es[log[j].pos].key) == 0
  {
    var es := After(calls).entries;
    CallsAreInOrder(es, 0, tls, effect);
    var log := PassFrom(es, 0, tls, effect).log;
    assert GoodCall(es, 0, tls, log, effect, j);
    EntriesAreKeysInUse(calls, es[log[j].pos]);
  }

  /** After any history, with destructors that leave the slots alone, the end of a thread clears exactly
      the slots of the keys in use that have a destructor. */
  lemma QuietEndClearsKeysInUse(calls: seq<Call>, tls: Slots, effect: Effect, key: Dword)
    requires Legal(calls)
    requires forall f, v, t :: effect(f, v, t) == t
    ensures Get(PassFrom(After(calls).entries, 0, tls, effect).tls, key) ==
      if exists e :: e in InUse(calls) && e.f != 0 && e.key == key then 0 else Get(tls, key)
  {
    var es := After(calls).entries;
    QuietPassClears(es, 0, tls, effect, key);
    if q :| 0 <= q < |es| && es[q].f != 0 && es[q].key == key {
      EntriesAreKeysInUse(calls, es[q]);
    }
    if e :| e in InUse(calls) && e.f != 0 && e.key == key {
      EntriesAreKeysInUse(calls, e);
      var q :| 0 <= q < |es| && es[q] == e;
    }
  }
}
