/** The user ids and loopback addresses of page endpoints, kept in two files: a registry of the
    current pages and a history of the pages that are gone. */
module ConnectorIdentity {
  import opened Options

  const UID_MIN := 22000
  const UID_MAX := 22999

  datatype Error = Corrupt | Exhausted

  datatype Result = Ok(uid: int) | Err(error: Error)

  type Owners = map<string, int>

  predicate InRange(uid: int) { UID_MIN <= uid <= UID_MAX }

  predicate Uses(m: Owners, page: string, uid: int) { page in m && m[page] == uid }

  /** Every id is in range, and no two pages in either file share one. */
  ghost predicate Consistent(previous: Owners, history: Owners) {
    && (forall p :: p in previous ==> InRange(previous[p]))
    && (forall p :: p in history ==> InRange(history[p]))
    && (forall p, q, uid :: Has(previous, history, p, uid) && Has(previous, history, q, uid) ==> p == q)
  }

  /** Either file gives the page that id. */
  predicate Has(previous: Owners, history: Owners, page: string, uid: int) {
    Uses(previous, page, uid) || Uses(history, page, uid)
  }

  /** `owners` says who has which id in the files read so far. */
  ghost predicate Recorded(owners: map<int, string>, m: Owners, pages: set<string>) {
    forall p :: p in m && p in pages ==> InRange(m[p]) && m[p] in owners && owners[m[p]] == p
  }

  /** Adds one file's owners; fails on an id out of range or one that another page has. */
  method ReadOwners(m: Owners, before: map<int, string>) returns (owners: map<int, string>, ok: bool)
    ensures ok ==> Recorded(owners, m, m.Keys) && forall uid :: uid in before ==> uid in owners && owners[uid] == before[uid]
    ensures ok ==> forall uid :: uid in owners ==> (uid in before && owners[uid] == before[uid]) || Uses(m, owners[uid], uid)
    ensures !ok ==> exists p :: p in m && Clashes(m, p, before)
  {
    owners := before;
    var left := m.Keys;
    while left != {}
      invariant left <= m.Keys && Recorded(owners, m, m.Keys - left)
      invariant forall uid :: uid in before ==> uid in owners && owners[uid] == before[uid]
      invariant forall uid :: uid in owners ==> (uid in before && owners[uid] == before[uid]) || Uses(m, owners[uid], uid)
      decreases |left|
    {
      var page :| page in left;
      var uid := m[page];
      if uid < UID_MIN || uid > UID_MAX || (uid in owners && owners[uid] != page) {
        assert Clashes(m, page, before);
        return owners, false;
      }
      owners := owners[uid := page];
      left := left - {page};
    }
    ok := true;
  }

  /** The page's id is out of range or taken. */
  ghost predicate Clashes(m: Owners, page: string, before: map<int, string>)
    requires page in m
  {
    || !InRange(m[page])
    || (m[page] in before && before[m[page]] != page)
    || (exists q :: q != page && Uses(m, q, m[page]))
  }

  lemma Symmetric(previous: Owners, history: Owners)
    requires Consistent(previous, history)
    ensures Consistent(history, previous)
  {
    forall p, q, uid | Has(history, previous, p, uid) && Has(history, previous, q, uid)
      ensures p == q
    {
      assert Has(previous, history, p, uid) && Has(previous, history, q, uid);
    }
  }

  lemma ClashIsInconsistent(previous: Owners, history: Owners, before: map<int, string>)
    requires exists p :: p in previous && Clashes(previous, p, before)
    requires forall uid :: uid in before ==> Uses(history, before[uid], uid)
    ensures !Consistent(previous, history)
  {
    var p :| p in previous && Clashes(previous, p, before);
    var uid := previous[p];
    assert Has(previous, history, p, uid);
    if uid in before && before[uid] != p {
      assert Has(previous, history, before[uid], uid);
    } else if InRange(uid) {
      var q :| q != p && Uses(previous, q, uid);
      assert Has(previous, history, q, uid);
    }
  }

  /** What the page already has, and otherwise the smallest id no page has or had. */
  ghost predicate Assigned(page: string, previous: Owners, history: Owners, uid: int) {
    if page in previous then uid == previous[page]
    else if page in history then uid == history[page]
    else InRange(uid) && Unused(previous, history, uid) && forall u :: UID_MIN <= u < uid ==> !Unused(previous, history, u)
  }

  ghost predicate Unused(previous: Owners, history: Owners, uid: int) {
    forall p :: !Uses(previous, p, uid) && !Uses(history, p, uid)
  }

  /** The page's stable id.  Files that contradict themselves give none, and neither does a
      thousand-and-first page. */
  method Identity(page: string, previous: Owners, history: Owners) returns (r: Result)
    ensures r == Err(Corrupt) <==> !Consistent(previous, history)
    ensures r.Ok? ==> Assigned(page, previous, history, r.uid)
    ensures r == Err(Exhausted) ==> page !in previous && page !in history
    ensures r == Err(Exhausted) ==> forall u :: InRange(u) ==> !Unused(previous, history, u)
  {
    var owners, ok := ReadOwners(history, map[]);
    if !ok {
      ClashIsInconsistent(history, previous, map[]);
      if Consistent(previous, history) {
        Symmetric(previous, history);
      }
      return Err(Corrupt);
    }
    ghost var first := owners;
    owners, ok := ReadOwners(previous, owners);
    if !ok {
      ClashIsInconsistent(previous, history, first);
      return Err(Corrupt);
    }
    assert Recorded(owners, history, history.Keys);
    if page in previous {
      return Ok(previous[page]);
    }
    if page in history {
      return Ok(history[page]);
    }
    var uid := UID_MIN;
    while uid <= UID_MAX
      invariant UID_MIN <= uid <= UID_MAX + 1
      invariant forall u :: UID_MIN <= u < uid ==> !Unused(previous, history, u)
    {
      if uid !in owners {
        return Ok(uid);
      }
      assert Uses(previous, owners[uid], uid) || Uses(history, owners[uid], uid);
      uid := uid + 1;
    }
    r := Err(Exhausted);
  }

  // ---------------------------------------------------------------- addresses

  datatype Address = Address(a: int, b: int, c: int, d: int)

  function TargetIp(uid: int): Address
    requires InRange(uid)
  {
    var offset := uid - UID_MIN;
    Address(127, 77, offset / 250, offset % 250 + 1)
  }

  /** Different ids have different addresses, from 127.77.0.1 to 127.77.3.250. */
  lemma AddressesAreDistinct(uid: int, other: int)
    requires InRange(uid) && InRange(other)
    ensures TargetIp(uid) == TargetIp(other) ==> uid == other
    ensures var ip := TargetIp(uid); ip.a == 127 && ip.b == 77 && 0 <= ip.c <= 3 && 1 <= ip.d <= 250
  {
    var m, n := uid - UID_MIN, other - UID_MIN;
    assert m == 250 * (m / 250) + m % 250 && n == 250 * (n / 250) + n % 250;
  }

  // ---------------------------------------------------------------- reconciliation

  /** The files agree with everything that was ever published: a page that is current is in the
      registry with its id, one that is gone is in the history. */
  ghost predicate Faithful(registry: Owners, history: Owners, published: Owners) {
    && (forall p :: p in registry ==> Uses(published, p, registry[p]))
    && (forall p :: p in history ==> Uses(published, p, history[p]))
    && (forall p :: p in published ==> p in registry || p in history)
    && Injective(published)
  }

  ghost predicate Injective(published: Owners) {
    && (forall p :: p in published ==> InRange(published[p]))
    && (forall p, q :: p in published && q in published && published[p] == published[q] ==> p == q)
  }

  /** The entries chosen so far: ids that were published are kept, new ones are new. */
  ghost predicate Chosen(entries: Owners, published: Owners) {
    Injective(published + entries) && forall p :: p in entries && p in published ==> entries[p] == published[p]
  }

  lemma InjectiveAdd(all: Owners, page: string, uid: int)
    requires Injective(all) && InRange(uid) && page !in all && forall q :: q in all ==> all[q] != uid
    ensures Injective(all[page := uid])
  {
  }

  lemma NewPage(registry: Owners, history: Owners, published: Owners, entries: Owners, page: string, uid: int, q: string)
    requires Faithful(registry, history, published) && Chosen(entries, published)
    requires Unused(registry + entries, history, uid) && q in published + entries
    ensures (published + entries)[q] != uid
  {
    assert !Uses(registry + entries, q, uid) && !Uses(history, q, uid);
  }

  lemma KnownPage(registry: Owners, history: Owners, published: Owners, entries: Owners, page: string, uid: int)
    requires Faithful(registry, history, published) && page !in entries && page in published
    requires Assigned(page, registry + entries, history, uid)
    ensures uid == published[page]
  {
    assert page in registry ==> Uses(published, page, registry[page]);
    assert page in history ==> Uses(published, page, history[page]);
  }

  lemma ChooseKnown(registry: Owners, history: Owners, published: Owners, entries: Owners, page: string, uid: int)
    requires Faithful(registry, history, published) && Chosen(entries, published) && page !in entries && page in published
    requires Assigned(page, registry + entries, history, uid)
    ensures Chosen(entries[page := uid], published)
  {
    KnownPage(registry, history, published, entries, page, uid);
    assert published + entries[page := uid] == published + entries;
  }

  lemma NothingKnown(registry: Owners, history: Owners, published: Owners, entries: Owners, page: string)
    requires Faithful(registry, history, published) && page !in entries && page !in published
    ensures page !in registry + entries && page !in history
  {
  }

  lemma ChooseNew(registry: Owners, history: Owners, published: Owners, entries: Owners, page: string, uid: int)
    requires Faithful(registry, history, published) && Chosen(entries, published) && page !in entries && page !in published
    requires InRange(uid) && Unused(registry + entries, history, uid)
    ensures Chosen(entries[page := uid], published)
  {
    var all := published + entries;
    assert published + entries[page := uid] == all[page := uid];
    forall q | q in all
      ensures all[q] != uid
    {
      NewPage(registry, history, published, entries, page, uid, q);
    }
    InjectiveAdd(all, page, uid);
  }

  lemma ChooseOne(registry: Owners, history: Owners, published: Owners, entries: Owners, page: string, uid: int)
    requires Faithful(registry, history, published) && Chosen(entries, published) && page !in entries
    requires Assigned(page, registry + entries, history, uid)
    ensures Chosen(entries[page := uid], published)
  {
    if page in published {
      ChooseKnown(registry, history, published, entries, page, uid);
    } else {
      NothingKnown(registry, history, published, entries, page);
      ChooseNew(registry, history, published, entries, page, uid);
    }
  }

  lemma PartsAreConsistent(previous: Owners, history: Owners, all: Owners)
    requires Injective(all)
    requires forall p :: p in previous ==> Uses(all, p, previous[p])
    requires forall p :: p in history ==> Uses(all, p, history[p])
    ensures Consistent(previous, history)
  {
  }

  lemma EntriesAreConsistent(registry: Owners, history: Owners, published: Owners, entries: Owners)
    requires Faithful(registry, history, published) && Chosen(entries, published)
    ensures Consistent(registry + entries, history)
  {
    var all, previous := published + entries, registry + entries;
    forall p | p in previous
      ensures Uses(all, p, previous[p])
    {
      assert p in registry ==> Uses(published, p, registry[p]);
    }
    forall p | p in history
      ensures Uses(all, p, history[p])
    {
      assert Uses(published, p, history[p]);
    }
    PartsAreConsistent(previous, history, all);
  }

  lemma GoneIntoHistory(registry: Owners, history: Owners, published: Owners, entries: Owners, kept: Owners)
    requires Faithful(registry, history, published) && Chosen(entries, published)
    requires kept == history + (registry - entries.Keys)
    ensures Faithful(registry, kept, published)
    ensures Faithful(entries, kept, published + entries)
  {
  }

  class AppRunner {
    var registry: Owners
    var history: Owners
    ghost var published: Owners

    ghost predicate Valid()
      reads this
    {
      Faithful(registry, history, published)
    }

    constructor ()
      ensures Valid() && published == map[]
    {
      registry, history, published := map[], map[], map[];
    }

    /** The entries of the current pages, in the order in which they are listed. */
    method Choose(pages: seq<string>) returns (entries: Option<Owners>)
      requires Valid() && forall i, j :: 0 <= i < j < |pages| ==> pages[i] != pages[j]
      ensures entries.Some? ==> Chosen(entries.value, published) && (forall p :: p in entries.value <==> p in pages)
      ensures entries.None? ==> exists p :: p in pages && p !in published
    {
      var chosen: Owners := map[];
      var i := 0;
      while i < |pages|
        invariant 0 <= i <= |pages| && Chosen(chosen, published)
        invariant forall p :: p in chosen <==> p in pages[..i]
      {
        var page := pages[i];
        EntriesAreConsistent(registry, history, published, chosen);
        var r := Identity(page, registry + chosen, history);
        if r.Err? {
          assert r.error.Exhausted?;
          assert page in pages && page !in registry + chosen && page !in history;
          return None;
        }
        ChooseOne(registry, history, published, chosen, page, r.uid);
        chosen := chosen[page := r.uid];
        i := i + 1;
      }
      assert pages[..i] == pages;
      entries := Some(chosen);
    }

    /** Publishes the current pages' endpoints: the history is written first, then the registry,
        and the process may die before, between or after the two.  Whatever was ever published
        keeps its id. */
    method Reconcile(pages: seq<string>, writes: nat) returns (entries: Option<Owners>)
      requires Valid() && forall i, j :: 0 <= i < j < |pages| ==> pages[i] != pages[j]
      modifies this
      ensures Valid()
      ensures forall p :: p in old(published) ==> Uses(published, p, old(published)[p])
      ensures entries.None? ==> registry == old(registry) && history == old(history)
      ensures entries.Some? ==> (forall p :: p in entries.value <==> p in pages) && Chosen(entries.value, old(published))
      ensures entries.Some? && writes >= 2 ==> registry == entries.value && published == old(published) + entries.value
      ensures entries.Some? && writes < 2 ==> registry == old(registry) && published == old(published)
      ensures entries.Some? ==>
                history == if writes == 0 then old(history) else old(history) + (old(registry) - entries.value.Keys)
    {
      entries := Choose(pages);
      if entries.None? {
        return;
      }
      var kept := history + (registry - entries.value.Keys);
      GoneIntoHistory(registry, history, published, entries.value, kept);
      if writes >= 1 {
        history := kept;
      }
      if writes >= 2 {
        registry, published := entries.value, published + entries.value;
      }
    }

    /** After any sequence of reconciliations and crashes, two pages that were ever published
        never share an id or an address. */
    lemma NeverShared(page: string, other: string)
      requires Valid() && page in published && other in published && page != other
      ensures InRange(published[page]) && InRange(published[other])
      ensures published[page] != published[other] && TargetIp(published[page]) != TargetIp(published[other])
    {
      AddressesAreDistinct(published[page], published[other]);
    }
  }
}
