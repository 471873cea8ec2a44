/** Page files, revocation markers and the cleanup queue of the Gateway, as durable writes.  Each
    write is atomic, and a crash or an error may follow any of them. */
module PageRevocation {

  /** `resource` is the grant's CRID, or else its resource id; either it or `qurl` may be empty. */
  datatype Grant = Grant(id: string, resource: string, qurl: string, expires: int)

  /** Something upstream has to be deleted for the grant. */
  predicate Remote(g: Grant) { g.qurl != "" && g.resource != "" }

  datatype Target = Target(resource: string, qurl: string)

  function TargetOf(g: Grant): Target { Target(g.resource, g.qurl) }

  /** A page file; `config` is everything but the grants. */
  datatype Page = Page(config: string, grants: seq<Grant>)

  datatype Job = Job(page: string, id: string, due: int, attempts: nat)

  /** A grant of a page. */
  datatype Held = Held(page: string, grant: Grant)

  /** The files and the queue; in memory, what an operation that will write a page back has loaded
      of it under the page's lock; and history: `committed` every grant a page file ever held,
      `enqueued` every grant handed to the queue, `accepted` the deletions the broker took over,
      `unlinked` what deleted page files contained. */
  datatype Disk = Disk(
    pages: map<string, Page>, markers: map<string, seq<Grant>>, jobs: map<Target, Job>, snapshots: map<string, seq<Grant>>,
    committed: set<Held>, enqueued: set<Held>, accepted: set<Target>, unlinked: map<string, Page>)

  const EMPTY := Disk(map[], map[], map[], map[], {}, {}, {}, map[])

  /** `Edit` is a read and a write under one hold of the store's lock; `Snapshot` and `WriteBack`
      are a read and a write that take the store's lock separately. */
  datatype Write =
    | Create(page: string, contents: Page)
    | Edit(page: string, contents: Page)
    | Snapshot(page: string)
    | WriteBack(page: string, contents: Page)
    | GiveUp(page: string)
    | Crash
    | PutMarker(page: string)
    | Enqueue(page: string, grant: Grant, now: int)
    | Unmark(page: string)
    | Unlink(page: string)
    | Resurrect(page: string)
    | Accept(target: Target)
    | DropJob(target: Target)
    | PutOff(target: Target, due: int)

  /** The grants in the file, whether or not a marker masks them. */
  function Raw(d: Disk, page: string): seq<Grant> {
    if page in d.pages then d.pages[page].grants else []
  }

  /** The grants a load returns: none while a marker is there. */
  function Shown(d: Disk, page: string): seq<Grant> {
    if page in d.markers then [] else Raw(d, page)
  }

  /** No page file ever held the grant. */
  predicate New(d: Disk, page: string, g: Grant) { Held(page, g) !in d.committed }

  /** What the code has established when it makes a write. */
  ghost predicate Allowed(d: Disk, w: Write) {
    match w
    case Create(page, contents) => page !in d.pages && page !in d.snapshots && forall g :: g in contents.grants ==> New(d, page, g)
    case Edit(page, contents) =>
      && page in d.pages && (forall g :: g in contents.grants ==> g in Shown(d, page))
      && (forall g :: g in Shown(d, page) && Remote(g) ==> g in contents.grants || Held(page, g) in d.enqueued)
    case Snapshot(page) => page in d.pages && page !in d.snapshots
    case WriteBack(page, contents) =>
      && page in d.pages && page in d.snapshots
      && (forall g :: g in d.snapshots[page] ==> g in contents.grants)
      && (forall g :: g in contents.grants ==> g in d.snapshots[page] || New(d, page, g))
    case GiveUp(_) => true
    case Crash => true
    case PutMarker(page) => page in d.pages && page !in d.markers
    case Enqueue(_, grant, _) => Remote(grant)
    case Unmark(page) =>
      && page in d.markers && Raw(d, page) == []
      && (forall g :: g in d.markers[page] && Remote(g) ==> Held(page, g) in d.enqueued)
    case Unlink(page) => page in d.pages && page !in d.markers && d.pages[page].grants == []
    case Resurrect(page) => page in d.unlinked && page !in d.pages
    case Accept(target) => target in d.jobs
    case DropJob(target) => target in d.jobs && target in d.accepted
    case PutOff(target, _) => target in d.jobs
  }

  predicate Puts(w: Write) { w.Create? || w.Edit? || w.WriteBack? }

  /** No grant is written to a page while a revocation of the page is pending. */
  ghost predicate Guarded(d: Disk, w: Write) {
    Puts(w) && w.page in d.markers ==> w.contents.grants == []
  }

  ghost function Put(d: Disk, page: string, contents: Page): Disk {
    d.(pages := d.pages[page := contents], committed := d.committed + set g | g in contents.grants :: Held(page, g))
  }

  ghost function Apply(d: Disk, w: Write): Disk
    requires Allowed(d, w)
  {
    match w
    case Create(page, contents) => Put(d, page, contents)
    case Edit(page, contents) => Put(d, page, contents)
    case Snapshot(page) => d.(snapshots := d.snapshots[page := Shown(d, page)])
    case WriteBack(page, contents) => Put(d, page, contents).(snapshots := d.snapshots - {page})
    case GiveUp(page) => d.(snapshots := d.snapshots - {page})
    case Crash => d.(snapshots := map[])
    case PutMarker(page) => d.(markers := d.markers[page := d.pages[page].grants])
    case Enqueue(page, grant, now) =>
      var t := TargetOf(grant);
      d.(jobs := if t in d.jobs then d.jobs else d.jobs[t := Job(page, grant.id, now, 0)],
         enqueued := d.enqueued + {Held(page, grant)})
    case Unmark(page) => d.(markers := d.markers - {page})
    case Unlink(page) => d.(pages := d.pages - {page}, unlinked := d.unlinked[page := d.pages[page]])
    case Resurrect(page) => d.(pages := d.pages[page := d.unlinked[page]])
    case Accept(target) => d.(accepted := d.accepted + {target})
    case DropJob(target) => d.(jobs := d.jobs - {target})
    case PutOff(target, due) =>
      d.(jobs := d.jobs[target := d.jobs[target].(due := due, attempts := d.jobs[target].attempts + 1)])
  }

  // ---------------------------------------------------------------- what is never lost

  /** The grant is in the page file, or in the marker, or was handed to the queue. */
  ghost predicate Accounted(d: Disk, h: Held) {
    h.grant in Raw(d, h.page) || (h.page in d.markers && h.grant in d.markers[h.page]) || h in d.enqueued
  }

  /** The queue still has the work, or the broker took it over. */
  ghost predicate Handed(d: Disk, h: Held) {
    Remote(h.grant) && (TargetOf(h.grant) in d.jobs || TargetOf(h.grant) in d.accepted)
  }

  ghost predicate Conserved(d: Disk) {
    forall h :: h in d.committed && Remote(h.grant) ==> Accounted(d, h)
  }

  /** What a pending marker masks is what it lists. */
  ghost predicate Covered(d: Disk) {
    forall page, g :: page in d.markers && g in Raw(d, page) && Remote(g) ==> g in d.markers[page] || Held(page, g) in d.enqueued
  }

  ghost predicate Queued(d: Disk) { forall h :: h in d.enqueued ==> Handed(d, h) }

  ghost predicate DeletedEmpty(d: Disk) { forall page :: page in d.unlinked ==> d.unlinked[page].grants == [] }

  /** What a write-back can lose: nothing, because nothing else adds to a page that is locked. */
  ghost predicate SnapshotsCover(d: Disk) {
    forall page, g :: page in d.snapshots && g in Shown(d, page) ==> g in d.snapshots[page]
  }

  ghost predicate Inv(d: Disk) { Conserved(d) && Covered(d) && Queued(d) && DeletedEmpty(d) && SnapshotsCover(d) }

  lemma PutKeeps(d: Disk, w: Write)
    requires Inv(d) && Allowed(d, w) && Guarded(d, w) && Puts(w)
    ensures Inv(Apply(d, w))
  {
    var d' := Apply(d, w);
    forall h | h in d'.committed && Remote(h.grant)
      ensures Accounted(d', h)
    {
      if h in d.committed { assert Accounted(d, h); }
    }
    forall h | h in d'.enqueued
      ensures Handed(d', h)
    {
      assert Handed(d, h);
    }
  }

  lemma EnqueueKeeps(d: Disk, page: string, grant: Grant, now: int)
    requires Inv(d) && Allowed(d, Enqueue(page, grant, now))
    ensures Inv(Apply(d, Enqueue(page, grant, now)))
  {
    var d' := Apply(d, Enqueue(page, grant, now));
    forall h | h in d'.committed && Remote(h.grant)
      ensures Accounted(d', h)
    {
      assert Accounted(d, h);
    }
    forall h | h in d'.enqueued
      ensures Handed(d', h)
    {
      if h in d.enqueued { assert Handed(d, h); }
    }
  }

  lemma MarkerKeeps(d: Disk, w: Write)
    requires Inv(d) && Allowed(d, w) && (w.PutMarker? || w.Unmark?)
    ensures Inv(Apply(d, w))
  {
    var d' := Apply(d, w);
    forall h | h in d'.committed && Remote(h.grant)
      ensures Accounted(d', h)
    {
      assert Accounted(d, h);
    }
    assert forall h :: Handed(d', h) <==> Handed(d, h);
  }

  lemma FileKeeps(d: Disk, w: Write)
    requires Inv(d) && Allowed(d, w) && (w.Unlink? || w.Resurrect?)
    ensures Inv(Apply(d, w))
  {
    var d' := Apply(d, w);
    forall h | h in d'.committed && Remote(h.grant)
      ensures Accounted(d', h)
    {
      assert Accounted(d, h);
    }
    assert forall h :: Handed(d', h) <==> Handed(d, h);
  }

  lemma LoadKeeps(d: Disk, w: Write)
    requires Inv(d) && Allowed(d, w) && (w.Snapshot? || w.GiveUp? || w.Crash?)
    ensures Inv(Apply(d, w))
  {
    var d' := Apply(d, w);
    forall h | h in d'.committed && Remote(h.grant)
      ensures Accounted(d', h)
    {
      assert Accounted(d, h);
    }
    assert forall h :: Handed(d', h) <==> Handed(d, h);
  }

  lemma QueueKeeps(d: Disk, w: Write)
    requires Inv(d) && Allowed(d, w) && (w.Accept? || w.DropJob? || w.PutOff?)
    ensures Inv(Apply(d, w))
  {
    var d' := Apply(d, w);
    forall h | h in d'.committed && Remote(h.grant)
      ensures Accounted(d', h)
    {
      assert Accounted(d, h);
    }
    forall h | h in d'.enqueued
      ensures Handed(d', h)
    {
      assert Handed(d, h);
    }
  }

  lemma WriteKeeps(d: Disk, w: Write)
    requires Inv(d) && Allowed(d, w) && Guarded(d, w)
    ensures Inv(Apply(d, w))
  {
    match w
    case Create(_, _) => PutKeeps(d, w);
    case Edit(_, _) => PutKeeps(d, w);
    case WriteBack(_, _) => PutKeeps(d, w);
    case Enqueue(page, grant, now) => EnqueueKeeps(d, page, grant, now);
    case Accept(_) => QueueKeeps(d, w);
    case DropJob(_) => QueueKeeps(d, w);
    case PutOff(_, _) => QueueKeeps(d, w);
    case PutMarker(_) => MarkerKeeps(d, w);
    case Unmark(_) => MarkerKeeps(d, w);
    case Unlink(_) => FileKeeps(d, w);
    case Resurrect(_) => FileKeeps(d, w);
    case _ => LoadKeeps(d, w);
  }

  // ---------------------------------------------------------------- all runs

  ghost predicate Run(d: Disk, writes: seq<Write>)
    decreases |writes|
  {
    writes == [] || (Allowed(d, writes[0]) && Run(Apply(d, writes[0]), writes[1..]))
  }

  ghost function After(d: Disk, writes: seq<Write>): Disk
    requires Run(d, writes)
    decreases |writes|
  {
    if writes == [] then d else After(Apply(d, writes[0]), writes[1..])
  }

  ghost predicate AllGuarded(d: Disk, writes: seq<Write>)
    requires Run(d, writes)
    decreases |writes|
  {
    writes == [] || (Guarded(d, writes[0]) && AllGuarded(Apply(d, writes[0]), writes[1..]))
  }

  lemma {:induction false} RunKeeps(d: Disk, writes: seq<Write>)
    requires Inv(d) && Run(d, writes) && AllGuarded(d, writes)
    ensures Inv(After(d, writes))
    decreases |writes|
  {
    if writes != [] {
      WriteKeeps(d, writes[0]);
      RunKeeps(Apply(d, writes[0]), writes[1..]);
    }
  }

  /** At every crash point: a grant that was ever committed and has something to delete upstream
      is still in its page file or in a marker, or the queue has its deletion, or the broker has
      taken that deletion over. */
  lemma NoGrantIsForgotten(writes: seq<Write>, h: Held)
    requires Run(EMPTY, writes) && AllGuarded(EMPTY, writes)
    requires h in After(EMPTY, writes).committed && Remote(h.grant)
    ensures var d := After(EMPTY, writes);
            || h.grant in Raw(d, h.page)
            || (h.page in d.markers && h.grant in d.markers[h.page])
            || TargetOf(h.grant) in d.jobs || TargetOf(h.grant) in d.accepted
  {
    RunKeeps(EMPTY, writes);
    var d := After(EMPTY, writes);
    assert Accounted(d, h);
    if h in d.enqueued { assert Handed(d, h); }
  }

  /** Grants are forgotten in no run in which nothing is written to a page while a revocation of it
      is pending, and that condition cannot be dropped: without it some run forgets one. */
  lemma NoGrantIsForgottenExactly(guardedOnly: bool)
    ensures (forall writes :: Run(EMPTY, writes) && (guardedOnly ==> AllGuarded(EMPTY, writes)) ==> Conserved(After(EMPTY, writes)))
            <==> guardedOnly
  {
    if guardedOnly {
      forall writes | Run(EMPTY, writes) && AllGuarded(EMPTY, writes)
        ensures Conserved(After(EMPTY, writes))
      {
        RunKeeps(EMPTY, writes);
      }
    } else {
      MaskedCommitIsForgotten("home");
    }
  }

  const OLD := Grant("g0", "r0", "q0", 10)
  const NEW := Grant("g1", "r1", "q1", 20)

  ghost function ForgettingRun(page: string): seq<Write> {
    [Create(page, Page("", [OLD])), PutMarker(page), Snapshot(page), WriteBack(page, Page("", [NEW])),
     Enqueue(page, OLD, 0), Edit(page, Page("", []))]
  }

  /** The states along that run. */
  ghost function ForgettingDisks(page: string): seq<Disk> {
    var old_, new_ := Held(page, OLD), Held(page, NEW);
    var d1 := EMPTY.(pages := map[page := Page("", [OLD])], committed := {old_});
    var d2 := d1.(markers := map[page := [OLD]]);
    var d4 := d2.(pages := map[page := Page("", [NEW])], committed := {old_, new_});
    var d5 := d4.(jobs := map[TargetOf(OLD) := Job(page, "g0", 0, 0)], enqueued := {old_});
    [EMPTY, d1, d2, d2.(snapshots := map[page := []]), d4, d5, d5.(pages := map[page := Page("", [])])]
  }

  lemma ForgettingStep(page: string, i: nat)
    requires i < 6
    ensures Leads(ForgettingDisks(page)[i], ForgettingRun(page)[i], ForgettingDisks(page)[i + 1])
  {
    if i == 0 { Only(page, OLD); }
    if i == 3 { Only(page, NEW); }
    if i == 5 { assert (set g | g in [] :: Held(page, g)) == {}; }
  }

  lemma Only(page: string, g: Grant)
    ensures (set x | x in [g] :: Held(page, x)) == {Held(page, g)}
  {
    assert g in [g];
  }

  /** A revocation is interrupted after its marker; a mint commits its grant to the masked page;
      recovery goes on and clears the page. */
  lemma MaskedCommitIsForgotten(page: string)
    ensures Run(EMPTY, ForgettingRun(page))
    ensures var d := After(EMPTY, ForgettingRun(page));
            Held(page, NEW) in d.committed && Remote(NEW) && !Accounted(d, Held(page, NEW)) && !Conserved(d)
  {
    var disks, writes := ForgettingDisks(page), ForgettingRun(page);
    forall i | 0 <= i < 6
      ensures Leads(disks[i], writes[i], disks[i + 1])
    {
      ForgettingStep(page, i);
    }
    Schedule(disks, writes, 0);
    assert writes[0..] == writes;
    assert !Accounted(disks[6], Held(page, NEW));
  }

  ghost predicate Leads(d: Disk, w: Write, d': Disk) {
    Allowed(d, w) && Apply(d, w) == d'
  }

  /** Writes that are all allowed when their turn comes. */
  lemma {:induction false} Schedule(disks: seq<Disk>, writes: seq<Write>, i: nat)
    requires |disks| == |writes| + 1 && i <= |writes|
    requires forall j :: 0 <= j < |writes| ==> Leads(disks[j], writes[j], disks[j + 1])
    ensures Run(disks[i], writes[i..]) && After(disks[i], writes[i..]) == disks[|writes|]
    decreases |writes| - i
  {
    if i < |writes| {
      assert Leads(disks[i], writes[i], disks[i + 1]);
      assert writes[i..][0] == writes[i] && writes[i..][1..] == writes[i + 1..];
      Schedule(disks, writes, i + 1);
    }
  }

  // ---------------------------------------------------------------- what comes back

  /** The write puts the grant back where a load returns it, from a snapshot of the page. */
  ghost predicate Restores(d: Disk, w: Write, h: Held) {
    w.WriteBack? && w.page == h.page && h.grant in w.contents.grants && h.page !in d.markers
  }

  /** The grant is in what an operation loaded that has not written the page back yet. */
  ghost predicate Stale(d: Disk, h: Held) {
    h.page in d.snapshots && h.grant in d.snapshots[h.page]
  }

  ghost predicate Hidden(d: Disk, h: Held) {
    h in d.committed && h.grant !in Shown(d, h.page) && DeletedEmpty(d)
  }

  /** A hidden grant is shown by the next write exactly if that writes it back from a snapshot that
      is older than its removal; and no new snapshot holds it. */
  lemma HiddenStep(d: Disk, w: Write, h: Held)
    requires Hidden(d, h) && Allowed(d, w)
    ensures h in Apply(d, w).committed && DeletedEmpty(Apply(d, w))
    ensures h.grant in Shown(Apply(d, w), h.page) <==> Restores(d, w, h)
    ensures Restores(d, w, h) || Stale(Apply(d, w), h) ==> Stale(d, h)
  {
  }

  /** Some load during the run returns the grant. */
  ghost predicate EverShown(d: Disk, writes: seq<Write>, h: Held)
    requires Run(d, writes)
    decreases |writes|
  {
    h.grant in Shown(d, h.page) || (writes != [] && EverShown(Apply(d, writes[0]), writes[1..], h))
  }

  /** Some write of the run restores the grant. */
  ghost predicate EverRestored(d: Disk, writes: seq<Write>, h: Held)
    requires Run(d, writes)
    decreases |writes|
  {
    writes != [] && (Restores(d, writes[0], h) || EverRestored(Apply(d, writes[0]), writes[1..], h))
  }

  /** In every run after a grant was masked or removed, a load returns it again if and only if the
      page is written back with it; and that can only be from a snapshot taken before. */
  lemma {:induction false} ReturnsOnlyByWriteBack(d: Disk, writes: seq<Write>, h: Held)
    requires Hidden(d, h) && Run(d, writes)
    ensures EverShown(d, writes, h) <==> EverRestored(d, writes, h)
    ensures EverShown(d, writes, h) ==> Stale(d, h)
    decreases |writes|
  {
    if writes != [] {
      var d' := Apply(d, writes[0]);
      HiddenStep(d, writes[0], h);
      if h.grant in Shown(d', h.page) {
        assert EverShown(d', writes[1..], h);
      } else {
        ReturnsOnlyByWriteBack(d', writes[1..], h);
      }
    }
  }

  ghost predicate CanReturn(d: Disk, h: Held) {
    exists writes :: Run(d, writes) && EverShown(d, writes, h)
  }

  lemma ReturningIsStale(d: Disk, h: Held)
    requires Hidden(d, h) && CanReturn(d, h)
    ensures Stale(d, h)
  {
    var writes :| Run(d, writes) && EverShown(d, writes, h);
    ReturnsOnlyByWriteBack(d, writes, h);
  }

  lemma StaleCanReturn(d: Disk, h: Held)
    requires Hidden(d, h) && h.page in d.pages && Stale(d, h)
    ensures CanReturn(d, h)
  {
    var recovery := RecoveryRun(d, h.page, 0);
    var r := Recovered(d, h.page, 0);
    if h.page in d.markers {
      HandingOver(d, h.page, d.markers[h.page], 0);
    }
    var w := WriteBack(h.page, Page("", r.snapshots[h.page]));
    RunAppendOne(d, recovery, w);
    var all := recovery + [w];
    assert Shown(After(d, all), h.page) == r.snapshots[h.page];
    ShownAtEnd(d, all, h);
  }

  /** A removed grant can come back exactly as long as some operation that loaded the page before
      the removal may still write it back. */
  lemma ComesBackExactly(d: Disk, h: Held)
    requires Hidden(d, h) && h.page in d.pages
    ensures CanReturn(d, h) <==> Stale(d, h)
  {
    if Stale(d, h) {
      StaleCanReturn(d, h);
    }
    if CanReturn(d, h) {
      ReturningIsStale(d, h);
    }
  }

  /** Once a marker was written with no operation in the middle of the page, which the page's lock
      sees to, no load ever returns a grant it masks. */
  lemma MaskedIsNeverReturned(d: Disk, writes: seq<Write>, h: Held)
    requires Run(d, writes) && DeletedEmpty(d) && h in d.committed && h.page in d.markers && h.page !in d.snapshots
    ensures !EverShown(d, writes, h)
  {
    ReturnsOnlyByWriteBack(d, writes, h);
  }

  ghost function ReturningRun(page: string): seq<Write> {
    [Create(page, Page("", [OLD])), Snapshot(page), Enqueue(page, OLD, 10), Edit(page, Page("", [])), WriteBack(page, Page("", [OLD]))]
  }

  ghost function ReturningDisks(page: string): seq<Disk> {
    var d1 := EMPTY.(pages := map[page := Page("", [OLD])], committed := {Held(page, OLD)});
    var d2 := d1.(snapshots := map[page := [OLD]]);
    var d3 := d2.(jobs := map[TargetOf(OLD) := Job(page, "g0", 10, 0)], enqueued := {Held(page, OLD)});
    [EMPTY, d1, d2, d3, d3.(pages := map[page := Page("", [])]), d3.(snapshots := map[])]
  }

  lemma ReturningStep(page: string, i: nat)
    requires i < 5
    ensures Leads(ReturningDisks(page)[i], ReturningRun(page)[i], ReturningDisks(page)[i + 1])
  {
    if i == 0 || i == 4 { Only(page, OLD); }
    if i == 3 { assert (set g | g in [] :: Held(page, g)) == {}; }
  }

  /** An expiry that needs no page lock comes between the load and the write-back of a mint or of a
      rolled back edit: the expired grant is on its way to deletion, and back on the page. */
  lemma ExpiredGrantReturns(page: string)
    ensures Run(EMPTY, ReturningRun(page)) && Run(EMPTY, ReturningRun(page)[..4])
    ensures var gone, back := After(EMPTY, ReturningRun(page)[..4]), After(EMPTY, ReturningRun(page));
            && OLD !in Shown(gone, page) && Held(page, OLD) in gone.enqueued && OLD in Shown(back, page)
  {
    var disks, writes := ReturningDisks(page), ReturningRun(page);
    forall i | 0 <= i < 5
      ensures Leads(disks[i], writes[i], disks[i + 1])
    {
      ReturningStep(page, i);
    }
    Schedule(disks, writes, 0);
    Schedule(disks[..5], writes[..4], 0);
    assert writes[0..] == writes && writes[..4][0..] == writes[..4];
  }

  // ---------------------------------------------------------------- recovery

  /** The commit of a new grant: what was loaded, with the grant in front. */
  ghost function Commit(d: Disk, page: string, g: Grant): Disk
    requires page in d.pages && page !in d.snapshots && New(d, page, g)
  {
    var s := Apply(d, Snapshot(page));
    Apply(s, WriteBack(page, Page(d.pages[page].config, [g] + s.snapshots[page])))
  }

  /** The queue after recovery has handed over every grant of a marker. */
  ghost function HandedOver(d: Disk, page: string, grants: seq<Grant>, now: int): Disk
    decreases |grants|
  {
    if grants == [] then d
    else
      HandedOver(if Remote(grants[0]) then Apply(d, Enqueue(page, grants[0], now)) else d, page, grants[1..], now)
  }

  /** What recovery leaves behind. */
  ghost function Recovered(d: Disk, page: string, now: int): Disk {
    if page !in d.markers then d
    else
      var q := HandedOver(d, page, d.markers[page], now);
      q.(pages := if page in d.pages then d.pages[page := d.pages[page].(grants := [])] else d.pages,
         markers := d.markers - {page})
  }

  lemma {:induction false} HandingOver(d: Disk, page: string, grants: seq<Grant>, now: int)
    ensures var q := HandedOver(d, page, grants, now);
            && q.pages == d.pages && q.markers == d.markers && q.snapshots == d.snapshots
            && q.committed == d.committed && q.unlinked == d.unlinked
            && (forall h :: h in q.enqueued <==> h in d.enqueued || (h.page == page && h.grant in grants && Remote(h.grant)))
    decreases |grants|
  {
    if grants != [] {
      HandingOver(if Remote(grants[0]) then Apply(d, Enqueue(page, grants[0], now)) else d, page, grants[1..], now);
    }
  }

  lemma {:induction false} HandingRun(d: Disk, page: string, grants: seq<Grant>, now: int) returns (writes: seq<Write>)
    ensures Run(d, writes) && After(d, writes) == HandedOver(d, page, grants, now)
    decreases |grants|
  {
    if grants == [] {
      writes := [];
    } else if Remote(grants[0]) {
      var w := Enqueue(page, grants[0], now);
      var rest := HandingRun(Apply(d, w), page, grants[1..], now);
      writes := [w] + rest;
      assert writes[0] == w && writes[1..] == rest;
    } else {
      writes := HandingRun(d, page, grants[1..], now);
    }
  }

  /** Recovery is a run: hand the marker's grants over, clear the page, remove the marker. */
  lemma RecoveryRun(d: Disk, page: string, now: int) returns (writes: seq<Write>)
    requires page in d.pages
    ensures Run(d, writes) && After(d, writes) == Recovered(d, page, now)
  {
    if page !in d.markers {
      return [];
    }
    var q := HandedOver(d, page, d.markers[page], now);
    HandingOver(d, page, d.markers[page], now);
    var handing := HandingRun(d, page, d.markers[page], now);
    var clear, unmark := Edit(page, d.pages[page].(grants := [])), Unmark(page);
    RunAppendOne(d, handing, clear);
    RunAppendOne(d, handing + [clear], unmark);
    writes := handing + [clear] + [unmark];
    assert Apply(q, clear).committed == q.committed;
  }

  /** A grant committed to a page survives the next recovery exactly if no revocation of the page
      was pending when it was written; otherwise it is forgotten without being cleaned up. */
  lemma CommitSurvivesExactly(d: Disk, page: string, g: Grant, now: int)
    requires page in d.pages && page !in d.snapshots && New(d, page, g) && Held(page, g) !in d.enqueued && Remote(g)
    requires page in d.markers ==> g !in d.markers[page]
    ensures Accounted(Recovered(Commit(d, page, g), page, now), Held(page, g)) <==> page !in d.markers
    ensures page !in d.markers ==> g in Shown(Recovered(Commit(d, page, g), page, now), page)
  {
    var c := Commit(d, page, g);
    if page in d.markers {
      HandingOver(c, page, c.markers[page], now);
    }
  }

  lemma {:induction false} RunConcat(d: Disk, writes: seq<Write>, more: seq<Write>)
    requires Run(d, writes) && Run(After(d, writes), more)
    ensures Run(d, writes + more) && After(d, writes + more) == After(After(d, writes), more)
    decreases |writes|
  {
    if writes == [] {
      assert writes + more == more;
    } else {
      RunConcat(Apply(d, writes[0]), writes[1..], more);
      assert (writes + more)[1..] == writes[1..] + more;
    }
  }

  lemma RunAppendOne(d: Disk, writes: seq<Write>, w: Write)
    requires Run(d, writes) && Allowed(After(d, writes), w)
    ensures Run(d, writes + [w]) && After(d, writes + [w]) == Apply(After(d, writes), w)
  {
    assert [w][1..] == [];
    assert Run(After(d, writes), [w]);
    RunConcat(d, writes, [w]);
  }

  lemma {:induction false} ShownAtEnd(d: Disk, writes: seq<Write>, h: Held)
    requires Run(d, writes) && h.grant in Shown(After(d, writes), h.page)
    ensures EverShown(d, writes, h)
    decreases |writes|
  {
    if writes != [] {
      ShownAtEnd(Apply(d, writes[0]), writes[1..], h);
    }
  }

  // ---------------------------------------------------------------- recorded runs

  lemma {:induction false} RunAppend(d: Disk, writes: seq<Write>, w: Write)
    requires Run(d, writes) && Allowed(After(d, writes), w)
    ensures Run(d, writes + [w]) && After(d, writes + [w]) == Apply(After(d, writes), w)
    ensures AllGuarded(d, writes + [w]) <==> AllGuarded(d, writes) && Guarded(After(d, writes), w)
    decreases |writes|
  {
    if writes == [] {
      assert writes + [w] == [w] && [w][1..] == [];
    } else {
      RunAppend(Apply(d, writes[0]), writes[1..], w);
      assert (writes + [w])[1..] == writes[1..] + [w];
    }
  }

  /** `writes` is a recorded run that leads from the empty disk to `d`; `guarded` tells whether
      all of it was guarded. */
  ghost predicate Recorded(writes: seq<Write>, d: Disk, guarded: bool) {
    forall start :: start == EMPTY ==>
      Run(start, writes) && After(start, writes) == d && AllGuarded(start, writes) == guarded
  }

  lemma RecordedAppend(writes: seq<Write>, d: Disk, guarded: bool, w: Write)
    requires Recorded(writes, d, guarded) && Allowed(d, w)
    ensures Recorded(writes + [w], Apply(d, w), guarded && Guarded(d, w))
  {
    assert Run(EMPTY, writes);
    RunAppend(EMPTY, writes, w);
  }
}
