/** The reference-counted table of per-page locks.  A use of a lock goes through three short
    steps under the table's guard or the lock itself; steps of any number of uses interleave. */
module PageLocks {

  datatype Stage = Waiting | Inside | Released

  /** One use: a thread that has counted itself in on an entry and not yet out.  A thread may have
      several, since the lock is reentrant. */
  datatype Use = Use(thread: int, page: string, entry: int, stage: Stage)

  ghost function References(uses: map<int, Use>, entry: int): set<int> {
    set u | u in uses && uses[u].entry == entry
  }

  /** The lock of an entry belongs to at most one thread. */
  ghost predicate Exclusive(uses: map<int, Use>) {
    forall u, v :: u in uses && v in uses && uses[u].stage.Inside? && uses[v].stage.Inside? && uses[u].entry == uses[v].entry
      ==> uses[u].thread == uses[v].thread
  }

  ghost function Count(uses: map<int, Use>, entry: int): nat { |References(uses, entry)| }

  lemma ReferencesAdd(uses: map<int, Use>, u: int, use: Use)
    requires u !in uses
    ensures forall e :: Count(uses[u := use], e) == Count(uses, e) + if e == use.entry then 1 else 0
  {
    forall e
      ensures Count(uses[u := use], e) == Count(uses, e) + if e == use.entry then 1 else 0
    {
      assert References(uses[u := use], e) == References(uses, e) + if e == use.entry then {u} else {};
    }
  }

  lemma ReferencesDrop(uses: map<int, Use>, u: int)
    requires u in uses
    ensures forall e :: Count(uses, e) == Count(uses - {u}, e) + if e == uses[u].entry then 1 else 0
  {
    assert (uses - {u})[u := uses[u]] == uses;
    ReferencesAdd(uses - {u}, u, uses[u]);
  }

  lemma ReferencesStage(uses: map<int, Use>, u: int, stage: Stage)
    requires u in uses
    ensures forall e :: Count(uses[u := uses[u].(stage := stage)], e) == Count(uses, e)
  {
    forall e
      ensures References(uses[u := uses[u].(stage := stage)], e) == References(uses, e)
    {
    }
  }

  /** No one references an entry exactly if the count says so. */
  lemma NoReferences(uses: map<int, Use>, entry: int)
    ensures Count(uses, entry) == 0 <==> forall u :: u in uses ==> uses[u].entry != entry
  {
    if u :| u in uses && uses[u].entry == entry {
      assert u in References(uses, entry);
    } else {
      forall u
        ensures u !in References(uses, entry)
      {
      }
      assert References(uses, entry) == {};
    }
  }

  lemma SomeReference(uses: map<int, Use>, entry: int) returns (u: int)
    requires Count(uses, entry) > 0
    ensures u in uses && uses[u].entry == entry
  {
    NoReferences(uses, entry);
    u :| u in uses && uses[u].entry == entry;
  }

  /** Every use holds its page's entry. */
  ghost predicate Indexed(table: map<string, int>, uses: map<int, Use>) {
    forall u :: u in uses ==> uses[u].page in table && table[uses[u].page] == uses[u].entry
  }

  /** Every entry in the table counts its uses, and has some. */
  ghost predicate Counted(table: map<string, int>, users: map<int, nat>, uses: map<int, Use>) {
    forall p :: p in table ==> table[p] in users && users[table[p]] == Count(uses, table[p]) > 0
  }

  predicate OwnEntries(table: map<string, int>, next: int) {
    && (forall p :: p in table ==> table[p] < next)
    && (forall p, q :: p in table && q in table && table[p] == table[q] ==> p == q)
  }

  lemma CountedEnter(table: map<string, int>, users: map<int, nat>, uses: map<int, Use>, next: int, u: int, use: Use)
    requires Indexed(table, uses) && Counted(table, users, uses) && OwnEntries(table, next) && u !in uses
    requires if use.page in table then use.entry == table[use.page] else use.entry == next
    ensures use.page in table ==> use.entry in users
    ensures Counted(table[use.page := use.entry], users[use.entry := (if use.page in table then users[use.entry] else 0) + 1], uses[u := use])
  {
    ReferencesAdd(uses, u, use);
    NoReferences(uses, next);
  }

  lemma EntriesEnter(table: map<string, int>, uses: map<int, Use>, next: int, u: int, use: Use)
    requires Indexed(table, uses) && OwnEntries(table, next) && Exclusive(uses) && u !in uses && use.stage.Waiting?
    requires if use.page in table then use.entry == table[use.page] else use.entry == next
    ensures Indexed(table[use.page := use.entry], uses[u := use]) && Exclusive(uses[u := use])
    ensures OwnEntries(table[use.page := use.entry], if use.page in table then next else next + 1)
  {
  }

  lemma CountedLeave(table: map<string, int>, users: map<int, nat>, uses: map<int, Use>, next: int, u: int)
    requires Indexed(table, uses) && Counted(table, users, uses) && OwnEntries(table, next) && u in uses
    ensures uses[u].entry in users && users[uses[u].entry] > 0
    ensures var left, entry := uses - {u}, uses[u].entry;
            var fewer := users[entry := users[entry] - 1];
            && fewer[entry] == Count(left, entry)
            && Counted(if fewer[entry] == 0 then table - {uses[u].page} else table, fewer, left)
  {
    ReferencesDrop(uses, u);
  }

  class LockTable {
    /** Which entry a page's lock is, and how many uses have counted themselves in on an entry. */
    var table: map<string, int>
    var users: map<int, nat>
    var next: int
    ghost var uses: map<int, Use>

    ghost predicate Valid()
      reads this
    {
      Indexed(table, uses) && Counted(table, users, uses) && OwnEntries(table, next) && Exclusive(uses)
    }

    constructor ()
      ensures Valid() && uses == map[] && table == map[]
    {
      table, users, next, uses := map[], map[], 0, map[];
    }

    /** Under the guard: the page's entry, made if there is none, with one more user. */
    method Enter(thread: int, page: string, ghost u: int) returns (entry: int)
      requires Valid() && u !in uses
      modifies this
      ensures Valid() && uses == old(uses)[u := Use(thread, page, entry, Waiting)]
      ensures table == if page in old(table) then old(table) else old(table)[page := entry]
    {
      entry := if page in table then table[page] else next;
      ghost var use := Use(thread, page, entry, Waiting);
      CountedEnter(table, users, uses, next, u, use);
      EntriesEnter(table, uses, next, u, use);
      if page !in table {
        table := table[page := entry];
        users := users[entry := 0];
        next := next + 1;
      }
      assert table == old(table)[page := entry];
      users := users[entry := users[entry] + 1];
      uses := uses[u := use];
    }

    /** The entry's lock is granted: no other thread is inside. */
    ghost method Acquire(u: int)
      requires Valid() && u in uses && uses[u].stage.Waiting?
      requires forall v :: v in uses && uses[v].stage.Inside? && uses[v].entry == uses[u].entry ==> uses[v].thread == uses[u].thread
      modifies this`uses
      ensures Valid() && uses == old(uses)[u := old(uses)[u].(stage := Inside)]
    {
      ReferencesStage(uses, u, Inside);
      uses := uses[u := uses[u].(stage := Inside)];
    }

    ghost method Release(u: int)
      requires Valid() && u in uses && uses[u].stage.Inside?
      modifies this`uses
      ensures Valid() && uses == old(uses)[u := old(uses)[u].(stage := Released)]
    {
      ReferencesStage(uses, u, Released);
      uses := uses[u := uses[u].(stage := Released)];
    }

    /** Under the guard again: one user fewer, and the last one takes the entry off the table. */
    method Leave(page: string, entry: int, ghost u: int)
      requires Valid() && u in uses && uses[u].stage.Released? && uses[u].page == page && uses[u].entry == entry
      modifies this`table, this`users, this`uses
      ensures Valid() && uses == old(uses) - {u}
      ensures forall p :: p != page ==> (p in table <==> p in old(table)) && (p in table ==> table[p] == old(table)[p])
      ensures page in table <==> exists v :: v in uses && uses[v].page == page
    {
      CountedLeave(table, users, uses, next, u);
      users := users[entry := users[entry] - 1];
      uses := uses - {u};
      NoReferences(uses, entry);
      if users[entry] == 0 && page in table && table[page] == entry {
        table := table - {page};
      } else {
        ghost var v := SomeReference(uses, entry);
        assert uses[v].page == page;
      }
    }

    /** Two uses inside the same page's critical section are the same thread's. */
    lemma MutualExclusion(u: int, v: int)
      requires Valid() && u in uses && v in uses && uses[u].page == uses[v].page
      requires uses[u].stage.Inside? && uses[v].stage.Inside?
      ensures uses[u].thread == uses[v].thread
    {
    }

    /** The table has an entry for exactly the pages in use. */
    lemma TableIsExact(page: string)
      requires Valid()
      ensures page in table <==> exists u :: u in uses && uses[u].page == page
    {
      if page in table {
        var u := SomeReference(uses, table[page]);
        assert uses[u].page == page;
      }
    }
  }
}
