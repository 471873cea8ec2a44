/** The page store's operations on its files, in the order in which they write, and the drain of
    the cleanup queue.  `log` records every durable write, so a crash leaves a prefix of it. */
module PageStore {
  import opened PageRevocation
  import opened Options
  import Backoff

  function If(b: bool, g: Grant): seq<Grant> { if b then [g] else [] }

  /** The grants that have expired, or those that have not, in order. */
  function ByExpiry(grants: seq<Grant>, now: int, expired: bool): seq<Grant> {
    if grants == [] then []
    else
      var last := grants[|grants| - 1];
      ByExpiry(grants[..|grants| - 1], now, expired) + If((last.expires <= now) == expired, last)
  }

  lemma {:induction false} ByExpiryHas(grants: seq<Grant>, now: int, expired: bool)
    ensures forall g :: g in ByExpiry(grants, now, expired) <==> g in grants && (g.expires <= now) == expired
    decreases |grants|
  {
    if grants != [] {
      var front, last := grants[..|grants| - 1], grants[|grants| - 1];
      ByExpiryHas(front, now, expired);
      assert grants == front + [last];
    }
  }

  lemma ByExpiryAppend(grants: seq<Grant>, g: Grant, now: int, expired: bool)
    ensures ByExpiry(grants + [g], now, expired) == ByExpiry(grants, now, expired) + If((g.expires <= now) == expired, g)
  {
    assert (grants + [g])[..|grants|] == grants;
  }

  /** Each half keeps its order. */
  lemma {:induction false} ByExpiryInOrder(a: seq<Grant>, b: seq<Grant>, now: int, expired: bool)
    ensures ByExpiry(a + b, now, expired) == ByExpiry(a, now, expired) + ByExpiry(b, now, expired)
    decreases |b|
  {
    if b == [] {
      assert a + b == a;
    } else {
      var front, last := b[..|b| - 1], b[|b| - 1];
      assert a + b == (a + front) + [last] && b == front + [last];
      ByExpiryInOrder(a, front, now, expired);
      ByExpiryAppend(a + front, last, now, expired);
      ByExpiryAppend(front, last, now, expired);
    }
  }

  /** If none has expired, all are left. */
  lemma {:induction false} NoneExpired(grants: seq<Grant>, now: int)
    requires |ByExpiry(grants, now, true)| == 0
    ensures ByExpiry(grants, now, false) == grants
    decreases |grants|
  {
    if grants != [] {
      var front, last := grants[..|grants| - 1], grants[|grants| - 1];
      assert grants == front + [last];
      ByExpiryAppend(front, last, now, true);
      ByExpiryAppend(front, last, now, false);
      NoneExpired(front, now);
    }
  }

  /** The grants with that id, or those without it, in order. */
  function ById(grants: seq<Grant>, id: string, own: bool): (r: seq<Grant>)
    ensures forall g :: g in r <==> g in grants && (g.id == id) == own
  {
    if grants == [] then []
    else (if (grants[0].id == id) == own then [grants[0]] else []) + ById(grants[1..], id, own)
  }

  /** What is left, and what is taken, keeps its order. */
  lemma {:induction false} ByIdInOrder(a: seq<Grant>, b: seq<Grant>, id: string, own: bool)
    ensures ById(a + b, id, own) == ById(a, id, own) + ById(b, id, own)
    decreases |a|
  {
    if a == [] {
      assert a + b == b;
    } else {
      var first := if (a[0].id == id) == own then [a[0]] else [];
      assert (a + b)[0] == a[0] && (a + b)[1..] == a[1..] + b;
      ByIdInOrder(a[1..], b, id, own);
      assert first + (ById(a[1..], id, own) + ById(b, id, own)) == first + ById(a[1..], id, own) + ById(b, id, own);
    }
  }

  /** Nothing was taken out exactly if no grant has the id. */
  lemma {:induction false} NoneTaken(grants: seq<Grant>, id: string)
    ensures |ById(grants, id, false)| <= |grants|
    ensures |ById(grants, id, false)| == |grants| <==> forall g :: g in grants ==> g.id != id
    decreases |grants|
  {
    if grants != [] {
      NoneTaken(grants[1..], id);
    }
  }

  /** What one deletion of the queue's comes to; a failure may say when to try again. */
  datatype Reply = Accepted | Refused(asked: bool, retryAfter: nat)

  /** The page's new contents and the grants that were taken off it. */
  datatype Taken = Taken(page: Page, grants: seq<Grant>)

  class PageStore {
    var pages: map<string, Page>
    var markers: map<string, seq<Grant>>
    var jobs: map<Target, Job>
    ghost var disk: Disk
    ghost var guarded: bool
    ghost var log: seq<Write>

    ghost predicate Valid()
      reads this
    {
      && Recorded(log, disk, guarded)
      && disk.pages == pages && disk.markers == markers && disk.jobs == jobs
    }

    constructor ()
      ensures Valid() && disk == EMPTY && guarded
    {
      pages, markers, jobs := map[], map[], map[];
      disk, guarded, log := EMPTY, true, [];
    }

    ghost method Do(w: Write)
      requires Recorded(log, disk, guarded) && Allowed(disk, w)
      modifies this`disk, this`guarded, this`log
      ensures Recorded(log, disk, guarded) && log == old(log) + [w]
      ensures disk == Apply(old(disk), w) && guarded == (old(guarded) && Guarded(old(disk), w))
    {
      RecordedAppend(log, disk, guarded, w);
      disk, guarded, log := Apply(disk, w), guarded && Guarded(disk, w), log + [w];
    }

    /** No grant is forgotten in any state the store passes through. */
    lemma Sound(h: Held)
      requires Valid() && guarded && h in disk.committed && Remote(h.grant)
      ensures Accounted(disk, h)
    {
      assert Run(EMPTY, log);
      RunKeeps(EMPTY, log);
    }

    /** The grants a load returns. */
    function Grants(page: string): seq<Grant>
      reads this
    {
      if page in markers || page !in pages then [] else pages[page].grants
    }

    method Load(page: string) returns (p: Option<Page>)
      requires Valid()
      ensures p.Some? <==> page in pages
      ensures p.Some? ==> p.value == pages[page].(grants := Shown(disk, page))
    {
      if page !in pages {
        return None;
      }
      p := Some(if page in markers then pages[page].(grants := []) else pages[page]);
    }

    // -------------------------------------------------------------- single writes

    /** A page file is replaced by one atomic rename. */
    method WritePage(page: string, p: Page, ghost w: Write)
      requires Valid() && (w == PageRevocation.Create(page, p) || w == Edit(page, p) || w == WriteBack(page, p)) && Allowed(disk, w)
      modifies this`pages, this`disk, this`guarded, this`log
      ensures Valid() && old(log) <= log && pages == old(pages)[page := p]
      ensures disk == Apply(old(disk), w)
      ensures guarded == (old(guarded) && (page in markers ==> p.grants == []))
    {
      Do(w);
      pages := pages[page := p];
    }

    /** CleanupQueue.enqueue: a grant with nothing upstream is ignored, and so is one whose
        deletion is already queued. */
    method EnqueueGrant(page: string, g: Grant, now: int)
      requires Valid()
      modifies this`jobs, this`disk, this`guarded, this`log
      ensures Valid() && old(log) <= log && guarded == old(guarded)
      ensures disk == if Remote(g) then Apply(old(disk), Enqueue(page, g, now)) else old(disk)
      ensures forall t :: t in old(jobs) ==> t in jobs && jobs[t] == old(jobs)[t]
    {
      if g.qurl == "" || g.resource == "" {
        return;
      }
      Do(Enqueue(page, g, now));
      if Target(g.resource, g.qurl) !in jobs {
        jobs := jobs[Target(g.resource, g.qurl) := Job(page, g.id, now, 0)];
      }
    }

    method EnqueueAll(page: string, grants: seq<Grant>, now: int)
      requires Valid()
      modifies this`jobs, this`disk, this`guarded, this`log
      ensures Valid() && old(log) <= log && guarded == old(guarded)
      ensures disk == HandedOver(old(disk), page, grants, now)
      ensures forall t :: t in old(jobs) ==> t in jobs && jobs[t] == old(jobs)[t]
    {
      var i := 0;
      while i < |grants|
        invariant 0 <= i <= |grants| && Valid() && old(log) <= log && guarded == old(guarded)
        invariant HandedOver(disk, page, grants[i..], now) == HandedOver(old(disk), page, grants, now)
        invariant forall t :: t in old(jobs) ==> t in jobs && jobs[t] == old(jobs)[t]
      {
        assert grants[i..][0] == grants[i] && grants[i..][1..] == grants[i + 1..];
        EnqueueGrant(page, grants[i], now);
        i := i + 1;
      }
    }

    method WriteMarker(page: string)
      requires Valid() && page in pages && page !in markers
      modifies this`markers, this`disk, this`guarded, this`log
      ensures Valid() && old(log) <= log && guarded == old(guarded)
      ensures markers == old(markers)[page := pages[page].grants] && disk == Apply(old(disk), PutMarker(page))
    {
      Do(PutMarker(page));
      markers := markers[page := pages[page].grants];
    }

    method RemoveMarker(page: string)
      requires Valid() && Allowed(disk, Unmark(page))
      modifies this`markers, this`disk, this`guarded, this`log
      ensures Valid() && old(log) <= log && guarded == old(guarded)
      ensures markers == old(markers) - {page} && disk == Apply(old(disk), Unmark(page))
    {
      Do(Unmark(page));
      markers := markers - {page};
    }

    // -------------------------------------------------------------- operations

    /** A new page; nothing happens to one that exists. */
    method Create(page: string, p: Page) returns (created: bool)
      requires Valid() && page !in disk.snapshots && forall g :: g in p.grants ==> New(disk, page, g)
      modifies this`pages, this`disk, this`guarded, this`log
      ensures Valid() && old(log) <= log
      ensures created <==> page !in old(pages)
      ensures pages == if created then old(pages)[page := p] else old(pages)
    {
      if page in pages {
        return false;
      }
      WritePage(page, p, PageRevocation.Create(page, p));
      created := true;
    }

    /** An edit never changes what grants a load returns. */
    method Update(page: string, config: string) returns (updated: bool)
      requires Valid()
      modifies this`pages, this`disk, this`guarded, this`log
      ensures Valid() && old(log) <= log && guarded == old(guarded) && disk.snapshots == old(disk).snapshots
      ensures updated <==> page in old(pages)
      ensures updated ==> pages == old(pages)[page := Page(config, old(Grants(page)))]
      ensures !updated ==> pages == old(pages)
      ensures Grants(page) == old(Grants(page))
    {
      if page !in pages {
        return false;
      }
      var p := Load(page);
      WritePage(page, Page(config, p.value.grants), Edit(page, Page(config, p.value.grants)));
      updated := true;
    }

    /** Between two holds of the store's lock: expiries and recoveries, which need no page lock, and
        anything on other pages.  An operation that has the page's lock knows no more than this. */
    method Meanwhile(page: string)
      requires Valid() && page in disk.snapshots
      modifies this`pages, this`markers, this`jobs, this`disk, this`guarded, this`log
      ensures Valid() && old(log) <= log && (page in pages <==> page in old(pages))
      ensures page in pages ==> pages[page].config == old(pages)[page].config
      ensures page in disk.snapshots && disk.snapshots[page] == old(disk).snapshots[page]
      ensures forall g :: g in Grants(page) ==> g in old(Grants(page))
      ensures forall g :: New(disk, page, g) <==> New(old(disk), page, g)
    {
    }

    /** The load with which an operation under the page's lock begins, if it will write back. */
    method LoadToWriteBack(page: string) returns (p: Option<Page>)
      requires Valid() && page !in disk.snapshots
      modifies this`disk, this`guarded, this`log
      ensures Valid() && old(log) <= log && guarded == old(guarded)
      ensures p.Some? <==> page in pages
      ensures p.Some? ==> p.value == pages[page].(grants := Grants(page))
      ensures disk == if p.Some? then Apply(old(disk), Snapshot(page)) else old(disk)
    {
      p := Load(page);
      if p.Some? {
        Do(Snapshot(page));
      }
    }

    /** replace, of a page that was loaded before. */
    method Replace(page: string, p: Page)
      requires Valid() && page in pages && Allowed(disk, WriteBack(page, p))
      modifies this`pages, this`disk, this`guarded, this`log
      ensures Valid() && old(log) <= log && pages == old(pages)[page := p]
      ensures disk == Apply(old(disk), WriteBack(page, p))
      ensures guarded == (old(guarded) && (page in markers ==> p.grants == []))
    {
      WritePage(page, p, WriteBack(page, p));
    }

    /** The end of a mint: the page is loaded again, and what was loaded is written back with the
        new grant in front, whatever was taken off the page meanwhile. */
    method CommitGrant(page: string, g: Grant) returns (found: bool)
      requires Valid() && page !in disk.snapshots && New(disk, page, g)
      modifies this`pages, this`markers, this`jobs, this`disk, this`guarded, this`log
      ensures Valid() && old(log) <= log
      ensures found <==> page in old(pages)
      ensures found ==> page in pages && pages[page] == old(pages)[page].(grants := [g] + old(Grants(page)))
      ensures found && page in markers ==> !guarded
      ensures found && page !in markers ==> Grants(page) == [g] + old(Grants(page))
    {
      var p := LoadToWriteBack(page);
      if p.None? {
        return false;
      }
      Meanwhile(page);
      Replace(page, p.value.(grants := [g] + p.value.grants));
      found := true;
    }

    /** An edit with its publication: when that fails, the page is put back as it was loaded before
        the edit, whatever was taken off it meanwhile. */
    method UpdatePublished(page: string, config: string, published: bool) returns (found: bool)
      requires Valid() && page !in disk.snapshots
      modifies this`pages, this`markers, this`jobs, this`disk, this`guarded, this`log
      ensures Valid() && old(log) <= log && (found <==> page in old(pages))
      ensures found ==> page in pages && page !in disk.snapshots
      ensures found && published ==> pages[page].config == config && forall g :: g in Grants(page) ==> g in old(Grants(page))
      ensures found && !published ==> pages[page] == old(pages)[page].(grants := old(Grants(page)))
    {
      var p := LoadToWriteBack(page);
      if p.None? {
        return false;
      }
      Meanwhile(page);
      var updated := Update(page, config);
      Meanwhile(page);
      if published {
        Do(GiveUp(page));
      } else {
        Replace(page, p.value);
      }
      found := true;
    }

    /** Finishes a revocation that was interrupted, or does nothing. */
    method Recover(page: string, now: int)
      requires Valid()
      modifies this`pages, this`markers, this`jobs, this`disk, this`guarded, this`log
      ensures Valid() && old(log) <= log && guarded == old(guarded)
      ensures disk == Recovered(old(disk), page, now)
      ensures page !in markers && pages.Keys == old(pages).Keys
      ensures page !in old(markers) ==> pages == old(pages)
      ensures page in old(markers) && page in pages ==> pages == old(pages)[page := old(pages)[page].(grants := [])]
      ensures page in old(markers) ==>
                forall g :: g in old(markers)[page] && Remote(g) ==> Held(page, g) in disk.enqueued
    {
      if page !in markers {
        return;
      }
      HandingOver(disk, page, markers[page], now);
      EnqueueAll(page, markers[page], now);
      if page in pages {
        WritePage(page, pages[page].(grants := []), Edit(page, pages[page].(grants := [])));
      }
      RemoveMarker(page);
    }

    /** Masks a page's grants, hands them to the queue and clears them. */
    method RevokePage(page: string, now: int) returns (taken: Option<Taken>)
      requires Valid()
      modifies this`pages, this`markers, this`jobs, this`disk, this`guarded, this`log
      ensures Valid() && old(log) <= log && guarded == old(guarded)
      ensures taken.Some? <==> page in old(pages)
      ensures page !in markers && pages.Keys == old(pages).Keys
      ensures taken.Some? ==> pages[page] == taken.value.page == old(pages)[page].(grants := [])
      ensures taken.Some? ==> taken.value.grants == old(Grants(page))
      ensures taken.Some? ==> forall g :: g in taken.value.grants && Remote(g) ==> Held(page, g) in disk.enqueued
      ensures taken.Some? && taken.value.grants == [] ==> disk == Recovered(old(disk), page, now)
    {
      Recover(page, now);
      var p := Load(page);
      if p.None? {
        return None;
      }
      var grants := p.value.grants;
      if grants != [] {
        WriteMarker(page);
        Recover(page, now);
      }
      taken := Some(Taken(p.value.(grants := []), grants));
    }

    /** Hands some grants to the queue and writes the page with the rest. */
    method TakeOff(page: string, p: Page, gone: seq<Grant>, rest: seq<Grant>, now: int)
      requires Valid() && page in pages && forall g :: g in rest ==> g in Grants(page)
      requires forall g :: g in Grants(page) ==> g in rest || g in gone
      modifies this`pages, this`jobs, this`disk, this`guarded, this`log
      ensures Valid() && old(log) <= log && guarded == old(guarded)
      ensures pages == old(pages)[page := p.(grants := rest)]
      ensures forall g :: g in gone && Remote(g) ==> Held(page, g) in disk.enqueued
    {
      if rest != [] {
        assert rest[0] in Grants(page);
      }
      HandingOver(disk, page, gone, now);
      EnqueueAll(page, gone, now);
      WritePage(page, p.(grants := rest), Edit(page, p.(grants := rest)));
    }

    /** Revokes one grant; the others stay as they are. */
    method RemoveGrant(page: string, id: string, now: int) returns (found: bool)
      requires Valid()
      modifies this`pages, this`jobs, this`disk, this`guarded, this`log
      ensures Valid() && old(log) <= log && guarded == old(guarded)
      ensures found <==> exists g :: g in old(Grants(page)) && g.id == id
      ensures found ==> page in old(pages) && pages == old(pages)[page := old(pages)[page].(grants := ById(old(Grants(page)), id, false))]
      ensures !found ==> pages == old(pages) && disk == old(disk)
      ensures forall g :: g in old(Grants(page)) && g.id == id && Remote(g) ==> Held(page, g) in disk.enqueued
    {
      var p := Load(page);
      if p.None? {
        return false;
      }
      var grants := p.value.grants;
      var remaining := ById(grants, id, false);
      NoneTaken(grants, id);
      if |remaining| == |grants| {
        return false;
      }
      var gone := ById(grants, id, true);
      TakeOff(page, p.value, gone, remaining, now);
      found := true;
    }

    /** The expired and the active grants, in order. */
    method Split(grants: seq<Grant>, now: int) returns (expired: seq<Grant>, active: seq<Grant>)
      ensures expired == ByExpiry(grants, now, true) && active == ByExpiry(grants, now, false)
    {
      expired, active := [], [];
      var i := 0;
      while i < |grants|
        invariant 0 <= i <= |grants|
        invariant expired == ByExpiry(grants[..i], now, true) && active == ByExpiry(grants[..i], now, false)
      {
        var g := grants[i];
        ByExpiryAppend(grants[..i], g, now, true);
        ByExpiryAppend(grants[..i], g, now, false);
        assert grants[..i + 1] == grants[..i] + [g];
        if g.expires <= now {
          expired := expired + [g];
        } else {
          active := active + [g];
        }
        i := i + 1;
      }
      assert grants[..i] == grants;
    }

    /** Takes expired grants off the page. */
    method Expire(page: string, now: int) returns (taken: Option<Taken>)
      requires Valid()
      modifies this`pages, this`jobs, this`disk, this`guarded, this`log
      ensures Valid() && old(log) <= log && guarded == old(guarded)
      ensures taken.Some? <==> page in old(pages)
      ensures taken.Some? ==> taken.value.grants == ByExpiry(old(Grants(page)), now, true)
      ensures taken.Some? ==> taken.value.page == old(pages)[page].(grants := ByExpiry(old(Grants(page)), now, false))
      ensures Grants(page) == ByExpiry(old(Grants(page)), now, false)
      ensures forall p :: p != page ==> Grants(p) == old(Grants(p))
      ensures taken.Some? && taken.value.grants == [] ==> disk == old(disk)
      ensures taken.Some? ==> forall g :: g in old(Grants(page)) ==> (g in Grants(page) <==> g.expires > now)
      ensures forall g :: g in old(Grants(page)) && g.expires <= now && Remote(g) ==> Held(page, g) in disk.enqueued
    {
      var p := Load(page);
      if p.None? {
        return None;
      }
      var grants := p.value.grants;
      var expired, active := Split(grants, now);
      ByExpiryHas(grants, now, true);
      ByExpiryHas(grants, now, false);
      if expired != [] {
        TakeOff(page, p.value, expired, active, now);
      } else {
        NoneExpired(grants, now);
      }
      taken := Some(Taken(p.value.(grants := active), expired));
    }

    /** Authority is retired before the file goes, so a file that a crash brings back holds none. */
    method Delete(page: string, now: int) returns (found: bool)
      requires Valid()
      modifies this`pages, this`markers, this`jobs, this`disk, this`guarded, this`log
      ensures Valid() && old(log) <= log && guarded == old(guarded)
      ensures found <==> page in old(pages)
      ensures pages.Keys == old(pages).Keys - {page}
      ensures forall g :: g in old(Grants(page)) && Remote(g) ==> Held(page, g) in disk.enqueued
      ensures found ==> page in disk.unlinked && disk.unlinked[page].grants == []
    {
      if page !in pages {
        return false;
      }
      var _ := RevokePage(page, now);
      Do(Unlink(page));
      pages := pages - {page};
      found := true;
    }

    // -------------------------------------------------------------- the cleanup queue

    /** At most `limit` of the jobs that are due, in no particular order. */
    method SelectDue(now: int, limit: nat) returns (batch: seq<Target>)
      ensures forall t :: t in batch ==> t in jobs && jobs[t].due <= now
      ensures forall i, j :: 0 <= i < j < |batch| ==> batch[i] != batch[j]
      ensures |batch| <= limit
      ensures |batch| < limit ==> forall t :: t in jobs && jobs[t].due <= now ==> t in batch
    {
      batch := [];
      var left := set t | t in jobs && jobs[t].due <= now;
      while left != {} && |batch| < limit
        invariant forall t :: t in jobs && jobs[t].due <= now <==> t in left || t in batch
        invariant forall t :: t in batch ==> t !in left && t in jobs
        invariant forall i, j :: 0 <= i < j < |batch| ==> batch[i] != batch[j]
        invariant |batch| <= limit
        decreases |left|
      {
        var t :| t in left;
        batch := batch + [t];
        left := left - {t};
      }
    }

    /** One deletion: completed once the broker accepted it, otherwise put off. */
    method CleanOne(t: Target, now: int, reply: Reply)
      requires Valid() && t in jobs
      modifies this`jobs, this`disk, this`guarded, this`log
      ensures Valid() && old(log) <= log && guarded == old(guarded)
      ensures jobs - {t} == old(jobs) - {t}
      ensures if reply.Accepted? then t !in jobs && t in disk.accepted else t in jobs
      ensures t in jobs ==> jobs[t].due == now + Backoff.RetirementDelay(reply.asked, reply.retryAfter, old(jobs)[t].attempts)
      ensures t in jobs ==> jobs[t].attempts == old(jobs)[t].attempts + 1
    {
      if reply.Accepted? {
        Do(Accept(t));
        Do(DropJob(t));
        jobs := jobs - {t};
      } else {
        var job := jobs[t];
        var due := now + Backoff.RetirementDelay(reply.asked, reply.retryAfter, job.attempts);
        Do(PutOff(t, due));
        jobs := jobs[t := job.(due := due, attempts := job.attempts + 1)];
      }
    }

    /** drain: every job of the batch is completed or due later, and no other job changes. */
    method Drain(now: int, replies: Target -> Reply) returns (batch: seq<Target>)
      requires Valid()
      modifies this`jobs, this`disk, this`guarded, this`log
      ensures Valid() && old(log) <= log && guarded == old(guarded)
      ensures |batch| <= 50 && forall t :: t in batch ==> t in old(jobs) && old(jobs)[t].due <= now
      ensures |batch| < 50 ==> forall t :: t in old(jobs) && old(jobs)[t].due <= now ==> t in batch
      ensures forall t :: t !in batch ==> SameJob(t, jobs, old(jobs))
      ensures forall t :: t in batch ==> Turned(t, jobs, replies(t), now)
    {
      batch := SelectDue(now, 50);
      var i := 0;
      while i < |batch|
        invariant 0 <= i <= |batch| && Valid() && old(log) <= log && guarded == old(guarded)
        invariant forall t :: t !in batch ==> SameJob(t, jobs, old(jobs))
        invariant forall j :: i <= j < |batch| ==> SameJob(batch[j], jobs, old(jobs))
        invariant forall j :: 0 <= j < i ==> Turned(batch[j], jobs, replies(batch[j]), now)
      {
        ghost var before := jobs;
        CleanOne(batch[i], now, replies(batch[i]));
        OthersKept(before, jobs, batch[i]);
        i := i + 1;
      }
    }
  }

  predicate SameJob(t: Target, m: map<Target, Job>, n: map<Target, Job>) {
    (t in m <==> t in n) && (t in m ==> m[t] == n[t])
  }

  /** Completed if the broker accepted it, due later if not. */
  predicate Turned(t: Target, m: map<Target, Job>, reply: Reply, now: int) {
    (t in m <==> reply.Refused?) && (t in m ==> m[t].due > now)
  }

  lemma OthersKept(m: map<Target, Job>, n: map<Target, Job>, t: Target)
    requires n - {t} == m - {t}
    ensures forall u :: u != t ==> (u in n <==> u in m) && (u in n ==> n[u] == m[u])
  {
    forall u | u != t
      ensures (u in n <==> u in m) && (u in n ==> n[u] == m[u])
    {
      assert u in n - {t} <==> u in m - {t};
      if u in n { assert (n - {t})[u] == (m - {t})[u]; }
    }
  }
}
