/** The destructor table of the Windows backend, in place: an array that doubles when it is full, with
    tombstones for freed keys, and the global that counts its users. */
module DestructorTable {
  import opened Words
  import opened TssSpec

  class Table {
    var n: nat
    var size: nat
    var entries: array<Entry>
    ghost var carried: nat  // entries copied by all reallocations so far

    /** Room for the next addition has been seen to. */
    ghost predicate Ready()
      reads this
    {
      n < size == entries.Length && size == Capacity(n + 1) && carried == Carried(n + 1)
    }

    ghost predicate Valid()
      reads this
    {
      0 < n <= size == entries.Length && size == Capacity(n) && carried == Carried(n)
    }

    ghost function Contents(): seq<Entry>
      reads this, entries
      requires n <= entries.Length
    {
      entries[..n]
    }

    /** destructor_table_grow( NULL) */
    constructor ()
      ensures Ready() && n == 0 && fresh(entries)
    {
      n, size, carried := 0, 4, 0;
      entries := new Entry[4](_ => TOMBSTONE);
      assert Capacity(0) == 0 && Carried(0) == 0;
    }

    /** destructor_table_grow of a full table: realloc carries the entries into a block twice the size. */
    constructor Grown(table: Table)
      requires table.Valid() && table.n == table.size
      ensures Ready() && n == table.n && fresh(entries)
      ensures Contents() == table.Contents()
    {
      n := table.n;
      size := 2 * table.size;
      carried := table.carried + table.n;
      var block := new Entry[2 * table.size](_ => TOMBSTONE);
      for i := 0 to table.n
        invariant block[..i] == table.entries[..i]
      {
        block[i] := table.entries[i];
      }
      entries := block;
    }

    /** The store at the end of destructor_table_add_destructor_for_key. */
    method Append(f: Dtor, key: Dword)
      requires Ready()
      modifies this`n, entries
      ensures Valid() && n == old(n) + 1 && Contents() == old(Contents()) + [Entry(key, f)]
    {
      entries[n] := Entry(key, f);
      n := n + 1;
    }

    /** destructor_table_remove_destructor_for_key */
    method Remove(key: Dword)
      requires Valid()
      modifies entries
      ensures Valid() && Contents() == Removed(old(Contents()), key)
    {
      ghost var was := Contents();
      var p := 0;
      while p < n
        invariant 0 <= p <= n && Contents() == was
        invariant forall i :: 0 <= i < p ==> was[i].key != key
      {
        if key == entries[p].key {
          entries[p] := TOMBSTONE;
          RemovedAt(was, key, p);
          assert Contents() == was[p := TOMBSTONE];
          return;
        }
        assert entries[p] == was[p];
        p := p + 1;
      }
      RemovedAt(was, key, p);
    }
  }

  /** destructor_table_add_destructor_for_key, the table pointer being passed in and out. */
  method AddDestructorForKey(table: Table?, f: Dtor, key: Dword) returns (table': Table?)
    requires table != null ==> table.Valid()
    requires key != 0
    modifies if table == null then {} else {table, table.entries}
    ensures f == 0 ==> table' == table && (table != null ==> unchanged(table) && unchanged(table.entries))
    ensures f != 0 ==> table' != null
    ensures table' != null ==> table'.Valid()
    ensures table' != null && table' != table ==> fresh(table') && fresh(table'.entries)
    ensures table' != null && table' == table ==> table.entries == old(table.entries)
    ensures table' != null ==>
      table'.Contents() == Added(if table == null then [] else old(table.Contents()), f, key)
  {
    table' := table;
    if f == 0 {
      return;
    }
    if table == null {
      table' := new Table();
    } else if table.n == table.size {
      table' := new Table.Grown(table);
    }
    table'.Append(f, key);
  }

  /** The global: lock, table and counter. */
  class Global {
    var lockReady: bool
    var table: Table?
    var inited: int

    ghost predicate Valid()
      reads this, table
    {
      && (table != null ==> table.Valid())
      && inited != 1 && inited >= 0
      && (lockReady <==> inited > 0)
      && (inited == 0 ==> table == null)
    }

    ghost function Repr(): set<object>
      reads this, table
    {
      if table == null then {this} else var t: Table := table; {this, t, t.entries}
    }

    /** The abstract value module TssSpec reasons about. */
    ghost function Model(): Tss
      reads this, table, if table == null then {} else {table.entries}
      requires Valid()
    {
      Tss(inited, table != null, if table == null then [] else table.Contents())
    }

    constructor ()
      ensures Valid() && Model() == NO_KEYS
    {
      lockReady, table, inited := false, null, 0;
    }

    /** mulle_thread_tss_init, called serially: the counter never stands at 1 between calls, so the
        branch that backs out of a competing initialisation is dead here (module TssInit has it). */
    method Init()
      requires Valid()
      modifies this`lockReady, this`inited
      ensures Valid() && Model() == InitTss(old(Model())) && inited > 0 && table == old(table)
    {
      inited := inited + 1;
      if inited == 1 {
        lockReady := true;
        inited := inited + 1;
      } else if inited == 2 {
        assert false;
      }
    }

    /** mulle_thread_tss_done */
    method Done()
      requires Valid() && inited > 0
      modifies this
      ensures Valid() && Model() == DoneTss(old(Model())) && (table == null || table == old(table))
    {
      inited := inited - 1;
      if inited == 0 {
        assert false;  // "called too often"
      } else if inited == 1 {
        lockReady := false;
        table := null;
        inited := inited - 1;
      }
    }

    /** mulle_thread_tss_create; `index` is what TlsAlloc returned. */
    method Create(index: Dword, f: Dtor) returns (rc: int, key: Dword)
      requires Valid() && index != 0
      modifies Repr()
      ensures Valid() && fresh(Repr() - old(Repr()))
      ensures if index == TLS_OUT_OF_INDEXES then rc == -1 && key == 0 && Model() == old(Model())
              else rc == 0 && key == index && Model() == CreateTss(old(Model()), key, f)
    {
      if index == TLS_OUT_OF_INDEXES {
        return -1, 0;
      }
      Init();
      table := AddDestructorForKey(table, f, index);
      return 0, index;
    }

    /** mulle_thread_tss_free up to TlsFree. */
    method Free(key: Dword)
      requires Valid() && inited > 0
      modifies Repr()
      ensures Valid() && fresh(Repr() - old(Repr()))
      ensures Model() == FreeTss(old(Model()), key)
    {
      if table != null {
        table.Remove(key);
      }
      Done();
    }

    /** Any legal serial history, carried out on the global. */
    method Perform(calls: seq<Call>)
      requires Valid() && Model() == NO_KEYS && Legal(calls)
      modifies Repr()
      ensures Valid() && Model() == After(calls)
      ensures Live(Model().entries) == WithDestructor(InUse(calls))
      ensures if |InUse(calls)| == 0 then Model() == NO_KEYS else inited == |InUse(calls)| + 1
    {
      for k := 0 to |calls|
        invariant Valid() && Model() == After(calls[..k])
        invariant fresh(Repr() - old(Repr()))
      {
        assert calls[..k + 1][..k] == calls[..k];
        match calls[k]
        case Create(key, f) =>
          var rc, created := Create(key, f);
        case Free(key) =>
          LegalPrefix(calls, k);
          HistoryDeterminesTss(calls[..k]);
          Free(key);
      }
      assert calls[..|calls|] == calls;
      HistoryDeterminesTss(calls);
    }
  }
}
