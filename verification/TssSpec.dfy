/** Thread local storage keys with destructors on Windows: what the table of destructors and the
    initialisation counter come to after any serial sequence of creates and frees. */
module TssSpec {
  import opened Words

  /** A destructor, 0 standing for the NULL function pointer. */
  type Dtor = nat

  datatype Entry = Entry(key: Dword, f: Dtor)

  const TOMBSTONE := Entry(0, 0)

  /** What TlsAlloc returns when it has no key left. */
  const TLS_OUT_OF_INDEXES: Dword := 0xFFFF_FFFF

  function Added(es: seq<Entry>, f: Dtor, key: Dword): seq<Entry> {
    if f == 0 then es else es + [Entry(key, f)]
  }

  /** The first entry for the key becomes a tombstone. */
  function Removed(es: seq<Entry>, key: Dword): (r: seq<Entry>)
    ensures |r| == |es|
  {
    if |es| == 0 then []
    else if es[0].key == key then [TOMBSTONE] + es[1..]
    else [es[0]] + Removed(es[1..], key)
  }

  /** The entries that are not tombstones, in table order. */
  function Live(es: seq<Entry>): seq<Entry> {
    if |es| == 0 then []
    else if es[0].key == 0 then Live(es[1..])
    else [es[0]] + Live(es[1..])
  }

  /** inited, and the table's entries if there is a table. */
  datatype Tss = Tss(inited: int, hasTable: bool, entries: seq<Entry>)

  const NO_KEYS := Tss(0, false, [])

  function InitTss(g: Tss): Tss {
    g.(inited := if g.inited == 0 then 2 else g.inited + 1)
  }

  function DoneTss(g: Tss): Tss {
    if g.inited == 2 then NO_KEYS else g.(inited := g.inited - 1)
  }

  function CreateTss(g: Tss, key: Dword, f: Dtor): Tss {
    var h := InitTss(g);
    h.(hasTable := h.hasTable || f != 0, entries := Added(h.entries, f, key))
  }

  function FreeTss(g: Tss, key: Dword): Tss {
    DoneTss(g.(entries := Removed(g.entries, key)))
  }

  // ---- histories of calls ----

  datatype Call = Create(key: Dword, f: Dtor) | Free(key: Dword)

  /** The keys in use, in order of creation, each with the destructor it was created with. */
  function InUse(calls: seq<Call>): seq<Entry> {
    if |calls| == 0 then []
    else
      var before, c := InUse(calls[..|calls| - 1]), calls[|calls| - 1];
      if c.Create? then before + [Entry(c.key, c.f)] else Without(before, c.key)
  }

  function Without(keys: seq<Entry>, key: Dword): seq<Entry> {
    if |keys| == 0 then []
    else if keys[0].key == key then Without(keys[1..], key)
    else [keys[0]] + Without(keys[1..], key)
  }

  function WithDestructor(keys: seq<Entry>): seq<Entry> {
    if |keys| == 0 then []
    else if keys[0].f == 0 then WithDestructor(keys[1..])
    else [keys[0]] + WithDestructor(keys[1..])
  }

  predicate Has(keys: seq<Entry>, key: Dword) {
    exists k :: 0 <= k < |keys| && keys[k].key == key
  }

  /** TlsAlloc hands out non-zero keys that are not in use, and only keys in use are freed. */
  ghost predicate Legal(calls: seq<Call>) {
    forall k :: 0 <= k < |calls| ==>
      match calls[k]
      case Create(key, _) => key != 0 && key != TLS_OUT_OF_INDEXES && !Has(InUse(calls[..k]), key)
      case Free(key) => Has(InUse(calls[..k]), key)
  }

  function After(calls: seq<Call>): Tss {
    if |calls| == 0 then NO_KEYS
    else
      var g, c := After(calls[..|calls| - 1]), calls[|calls| - 1];
      if c.Create? then CreateTss(g, c.key, c.f) else FreeTss(g, c.key)
  }

  ghost predicate Distinct(keys: seq<Entry>) {
    && (forall k :: 0 <= k < |keys| ==> keys[k].key != 0)
    && (forall j, k :: 0 <= j < k < |keys| ==> keys[j].key != keys[k].key)
  }

  // ---- lemmas on lists ----

  lemma {:induction false} LiveAppend(es: seq<Entry>, e: Entry)
    ensures Live(es + [e]) == Live(es) + if e.key == 0 then [] else [e]
  {
    if |es| == 0 {
    } else {
      assert (es + [e])[1..] == es[1..] + [e];
      LiveAppend(es[1..], e);
    }
  }

  lemma {:induction false} WithDestructorAppend(keys: seq<Entry>, e: Entry)
    ensures WithDestructor(keys + [e]) == WithDestructor(keys) + if e.f == 0 then [] else [e]
  {
    if |keys| == 0 {
    } else {
      assert (keys + [e])[1..] == keys[1..] + [e];
      WithDestructorAppend(keys[1..], e);
    }
  }

  /** The tombstone takes the key's first live entry out; with distinct live keys, its only one. */
  lemma {:induction false} LiveRemoved(es: seq<Entry>, key: Dword)
    requires key != 0 && Distinct(Live(es))
    ensures Live(Removed(es, key)) == Without(Live(es), key)
  {
    if |es| == 0 {
    } else {
      assert Removed(es, key)[1..] == if es[0].key == key then es[1..] else Removed(es[1..], key);
      if es[0].key == key {
        var rest := Live(es[1..]);
        assert Live(es) == [es[0]] + rest;
        forall k | 0 <= k < |rest| ensures rest[k].key != key {
          assert Live(es)[0].key != Live(es)[k + 1].key;
        }
        AbsentStays(rest, key);
      } else if es[0].key == 0 {
        LiveRemoved(es[1..], key);
      } else {
        assert Live(es)[1..] == Live(es[1..]);
        assert Distinct(Live(es[1..])) by { DistinctTail(Live(es)); }
        LiveRemoved(es[1..], key);
      }
    }
  }

  lemma DistinctTail(keys: seq<Entry>)
    requires |keys| > 0 && Distinct(keys)
    ensures Distinct(keys[1..])
  {
  }

  lemma {:induction false} AbsentStays(keys: seq<Entry>, key: Dword)
    requires forall k :: 0 <= k < |keys| ==> keys[k].key != key
    ensures Without(keys, key) == keys
  {
    if |keys| == 0 {
    } else {
      AbsentStays(keys[1..], key);
    }
  }

  lemma {:induction false} WithoutCommutes(keys: seq<Entry>, key: Dword)
    ensures WithDestructor(Without(keys, key)) == Without(WithDestructor(keys), key)
  {
    if |keys| == 0 {
    } else {
      WithoutCommutes(keys[1..], key);
    }
  }

  /** Filters keep the order, so what is distinct stays so. */
  lemma {:induction false} WithoutKeeps(keys: seq<Entry>, key: Dword)
    requires Distinct(keys)
    ensures Distinct(Without(keys, key))
    ensures forall e :: e in Without(keys, key) <==> e in keys && e.key != key
  {
    if |keys| == 0 {
    } else {
      DistinctTail(keys);
      WithoutKeeps(keys[1..], key);
      assert keys == [keys[0]] + keys[1..];
      HeadIsDistinct(keys, Without(keys[1..], key));
    }
  }

  lemma {:induction false} WithDestructorKeeps(keys: seq<Entry>)
    requires Distinct(keys)
    ensures Distinct(WithDestructor(keys))
    ensures forall e :: e in WithDestructor(keys) <==> e in keys && e.f != 0
  {
    if |keys| == 0 {
    } else {
      DistinctTail(keys);
      WithDestructorKeeps(keys[1..]);
      assert keys == [keys[0]] + keys[1..];
      HeadIsDistinct(keys, WithDestructor(keys[1..]));
    }
  }

  lemma HeadIsDistinct(keys: seq<Entry>, rest: seq<Entry>)
    requires |keys| > 0 && Distinct(keys) && Distinct(rest) && forall e :: e in rest ==> e in keys[1..]
    ensures Distinct([keys[0]] + rest)
  {
    forall k | 0 <= k < |rest| ensures rest[k].key != keys[0].key {
      assert rest[k] in keys[1..];
    }
  }

  lemma {:induction false} WithoutCounts(keys: seq<Entry>, key: Dword)
    requires Distinct(keys)
    ensures |Without(keys, key)| == if Has(keys, key) then |keys| - 1 else |keys|
  {
    if |keys| == 0 {
    } else {
      DistinctTail(keys);
      WithoutCounts(keys[1..], key);
      if keys[0].key == key {
        AbsentStays(keys[1..], key);
      } else if Has(keys, key) {
        var k :| 0 <= k < |keys| && keys[k].key == key;
        assert keys[1..][k - 1].key == key;
      }
    }
  }

  /** Removing works on the first entry that has the key, and on nothing else. */
  lemma {:induction false} RemovedAt(es: seq<Entry>, key: Dword, p: nat)
    requires p <= |es| && forall i :: 0 <= i < p ==> es[i].key != key
    ensures p == |es| ==> Removed(es, key) == es
    ensures p < |es| && es[p].key == key ==> Removed(es, key) == es[p := TOMBSTONE]
  {
    if p == 0 {
      assert |es| > 0 ==> es[0 := TOMBSTONE] == [TOMBSTONE] + es[1..];
    } else {
      assert forall i :: 0 <= i < p - 1 ==> es[1..][i] == es[i + 1];
      RemovedAt(es[1..], key, p - 1);
      if p < |es| && es[p].key == key {
        assert es[1..][p - 1] == es[p];
        assert es[p := TOMBSTONE] == [es[0]] + es[1..][p - 1 := TOMBSTONE];
      }
    }
  }

  // ---- what "in use" means ----

  /** Call k created the key, and no later call has freed it. */
  predicate CreatedFor(calls: seq<Call>, k: nat, e: Entry) {
    && k < |calls| && calls[k] == Create(e.key, e.f)
    && forall j :: k < j < |calls| ==> calls[j] != Free(e.key)
  }

  /** Where the entries that are kept were created. */
  function WithoutAt(keys: seq<Entry>, at: seq<nat>, key: Dword): seq<nat>
    requires |keys| == |at|
  {
    if |keys| == 0 then []
    else if keys[0].key == key then WithoutAt(keys[1..], at[1..], key)
    else [at[0]] + WithoutAt(keys[1..], at[1..], key)
  }

  lemma {:induction false} WithoutAtKeeps(keys: seq<Entry>, at: seq<nat>, key: Dword)
    requires |keys| == |at|
    ensures |WithoutAt(keys, at, key)| == |Without(keys, key)|
    ensures forall k :: k in WithoutAt(keys, at, key) <==> exists i :: 0 <= i < |at| && at[i] == k && keys[i].key != key
  {
    if |keys| == 0 {
    } else {
      WithoutAtKeeps(keys[1..], at[1..], key);
      assert forall i :: 0 <= i < |at| - 1 ==> at[1..][i] == at[i + 1] && keys[1..][i] == keys[i + 1];
      assert forall i :: 0 < i < |at| ==> at[i] == at[1..][i - 1] && keys[i] == keys[1..][i - 1];
    }
  }

  lemma {:induction false} WithoutAtMatches(calls: seq<Call>, keys: seq<Entry>, at: seq<nat>, key: Dword)
    requires |keys| == |at|
    requires forall i :: 0 <= i < |at| ==> CreatedFor(calls, at[i], keys[i])
    requires forall i, j :: 0 <= i < j < |at| ==> at[i] < at[j]
    ensures |WithoutAt(keys, at, key)| == |Without(keys, key)|
    ensures forall i :: 0 <= i < |WithoutAt(keys, at, key)| ==>
      CreatedFor(calls + [Free(key)], WithoutAt(keys, at, key)[i], Without(keys, key)[i])
    ensures forall i, j :: 0 <= i < j < |WithoutAt(keys, at, key)| ==>
      WithoutAt(keys, at, key)[i] < WithoutAt(keys, at, key)[j]
  {
    WithoutAtKeeps(keys, at, key);
    if |keys| == 0 {
    } else {
      WithoutAtMatches(calls, keys[1..], at[1..], key);
      WithoutAtKeeps(keys[1..], at[1..], key);
      var rest := WithoutAt(keys[1..], at[1..], key);
      forall i | 0 <= i < |rest| ensures at[0] < rest[i] {
        assert rest[i] in rest;
      }
      if keys[0].key != key { StaysCreated(calls, at[0], keys[0], key); }
    }
  }

  lemma StaysCreated(calls: seq<Call>, k: nat, e: Entry, key: Dword)
    requires CreatedFor(calls, k, e) && e.key != key
    ensures CreatedFor(calls + [Free(key)], k, e)
  {
  }

  /** The keys in use are those that some call has created, with the destructor given there, and no later call
      has freed, all of them, in the order of these calls. */
  lemma {:induction false} InUseMeans(calls: seq<Call>) returns (at: seq<nat>)
    ensures |at| == |InUse(calls)|
    ensures forall i :: 0 <= i < |at| ==> CreatedFor(calls, at[i], InUse(calls)[i])
    ensures forall i, j :: 0 <= i < j < |at| ==> at[i] < at[j]
    ensures forall k: nat, e :: CreatedFor(calls, k, e) ==> k in at
  {
    if |calls| == 0 {
      at := [];
    } else {
      var n := |calls| - 1;
      var before, c := calls[..n], calls[n];
      assert calls == before + [c];
      var at0 := InUseMeans(before);
      match c
      case Create(key, f) =>
        at := at0 + [n];
        forall i | 0 <= i < |at0| ensures CreatedFor(calls, at0[i], InUse(before)[i]) {
          assert CreatedFor(before, at0[i], InUse(before)[i]);
        }
        forall k: nat, e | CreatedFor(calls, k, e) ensures k in at {
          if k < n { assert CreatedFor(before, k, e); }
        }
      case Free(key) =>
        WithoutAtMatches(before, InUse(before), at0, key);
        WithoutAtKeeps(InUse(before), at0, key);
        at := WithoutAt(InUse(before), at0, key);
        forall k: nat, e | CreatedFor(calls, k, e) ensures k in at {
          assert CreatedFor(before, k, e);
          var i :| 0 <= i < |at0| && at0[i] == k;
          assert CreatedFor(before, at0[i], InUse(before)[i]);
        }
    }
  }

  // ---- the main result ----

  ghost predicate Describes(keys: seq<Entry>, g: Tss) {
    && Distinct(keys)
    && Live(g.entries) == WithDestructor(keys)
    && if |keys| == 0 then g == NO_KEYS else g.inited == |keys| + 1
  }

  lemma CreateDescribes(keys: seq<Entry>, g: Tss, key: Dword, f: Dtor)
    requires Describes(keys, g) && key != 0 && !Has(keys, key)
    ensures Describes(keys + [Entry(key, f)], CreateTss(g, key, f))
  {
    LiveAppend(g.entries, Entry(key, f));
    WithDestructorAppend(keys, Entry(key, f));
  }

  lemma FreeDescribes(keys: seq<Entry>, g: Tss, key: Dword)
    requires Describes(keys, g) && Has(keys, key)
    ensures Describes(Without(keys, key), FreeTss(g, key))
  {
    WithDestructorKeeps(keys);
    WithoutKeeps(keys, key);
    LiveRemoved(g.entries, key);
    WithoutCommutes(keys, key);
    WithoutCounts(keys, key);
  }

  /** After any legal history the keys in use are distinct, the table's live entries are exactly those
      with a destructor, in order of creation, and the counter is 0 with no table when no key is in
      use, and otherwise one more than their number. */
  lemma {:induction false} HistoryDeterminesTss(calls: seq<Call>)
    requires Legal(calls)
    ensures Distinct(InUse(calls))
    ensures Live(After(calls).entries) == WithDestructor(InUse(calls))
    ensures if |InUse(calls)| == 0 then After(calls) == NO_KEYS else After(calls).inited == |InUse(calls)| + 1
  {
    assert Describes(InUse(calls), After(calls)) by {
      if |calls| == 0 {
      } else {
        var n := |calls| - 1;
        LegalPrefix(calls, n);
        HistoryDeterminesTss(calls[..n]);
        match calls[n]
        case Create(key, f) => CreateDescribes(InUse(calls[..n]), After(calls[..n]), key, f);
        case Free(key) => FreeDescribes(InUse(calls[..n]), After(calls[..n]), key);
      }
    }
  }

  lemma LegalPrefix(calls: seq<Call>, k: nat)
    requires Legal(calls) && k <= |calls|
    ensures Legal(calls[..k])
  {
    assert forall j :: 0 <= j < k ==> calls[..k][..j] == calls[..j];
  }

  /** An index that TlsAlloc hands out again never meets the destructor of an earlier life. */
  lemma ReusedKeyFindsNoOldDestructor(calls: seq<Call>, key: Dword, i: nat)
    requires Legal(calls) && key != 0 && !Has(InUse(calls), key) && i < |After(calls).entries|
    ensures After(calls).entries[i].key != key
  {
    HistoryDeterminesTss(calls);
    WithDestructorKeeps(InUse(calls));
    LiveHas(After(calls).entries, i);
    var e := After(calls).entries[i];
    if e in InUse(calls) {
      var k :| 0 <= k < |InUse(calls)| && InUse(calls)[k] == e;
      assert Has(InUse(calls), e.key);
    }
  }

  lemma {:induction false} LiveHas(es: seq<Entry>, i: nat)
    requires i < |es|
    ensures es[i].key != 0 ==> es[i] in Live(es)
  {
    if i == 0 {
    } else {
      assert es[1..][i - 1] == es[i];
      LiveHas(es[1..], i - 1);
    }
  }

  // ---- growth of the table ----

  function Pow2(k: nat): nat { if k == 0 then 1 else 2 * Pow2(k - 1) }

  /** Room in the table after n additions: four entries at first, doubled whenever it is found full. */
  function Capacity(n: nat): nat {
    if n == 0 then 0
    else
      var c := Capacity(n - 1);
      if n - 1 < c then c else if c == 0 then 4 else 2 * c
  }

  /** Entries that the reallocations during n additions have carried over. */
  function Carried(n: nat): nat {
    if n == 0 then 0 else Carried(n - 1) + if n - 1 < Capacity(n - 1) then 0 else n - 1
  }

  /** Doubling is amortised: n additions carry fewer than 2n entries in all, the room is four times a
      power of two, enough, and beyond four never more than twice what the last addition found. */
  lemma {:induction false} GrowthIsAmortised(n: nat)
    requires n > 0
    ensures n <= Capacity(n) && (Capacity(n) == 4 || Capacity(n) <= 2 * (n - 1))
    ensures Carried(n) + 4 == Capacity(n) && Carried(n) < 2 * n
    ensures exists k: nat :: Capacity(n) == 4 * Pow2(k)
  {
    if n == 1 {
      assert Capacity(0) == 0 && Carried(0) == 0;
      assert Capacity(1) == 4 * Pow2(0);
    } else {
      GrowthIsAmortised(n - 1);
      var k: nat :| Capacity(n - 1) == 4 * Pow2(k);
      assert 2 * Capacity(n - 1) == 4 * Pow2(k + 1);
    }
  }
}
