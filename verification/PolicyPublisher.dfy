/** Publication of page policies (pages without their grants) from the administrator's process to
    the policy store, over requests that may fail before or after they were applied.  A marker
    file per page remembers that a publication is owed. */
module PolicyPublisher {
  import opened Options

  type Policy = string

  /** How a request ends.  One that failed without being applied may, if `late` is possible at
      all, still be applied at any later time. */
  datatype Reply = Acknowledged | FailedApplied | FailedNotApplied

  /** A request's effect: the page's policy, or its removal. */
  datatype Effect = Effect(page: string, policy: Option<Policy>)

  /** `acked` is the pages whose last request was acknowledged with no local change since, and
      `unresolved` the requests that failed without being applied. */
  datatype World = World(
    local: map<string, Policy>, store: map<string, Policy>, pending: set<string>,
    acked: set<string>, unresolved: set<Effect>)

  const START := World(map[], map[], {}, {}, {})

  datatype Act =
    | Mark(page: string)
    | PutLocal(page: string, policy: Policy)
    | DeleteLocal(page: string)
    | Request(page: string, reply: Reply)
    | Clear(page: string)
    | ApplyLate(effect: Effect)

  function Lookup(m: map<string, Policy>, page: string): Option<Policy> {
    if page in m then Some(m[page]) else None
  }

  function Updated(m: map<string, Policy>, e: Effect): map<string, Policy> {
    if e.policy.Some? then m[e.page := e.policy.value] else m - {e.page}
  }

  /** What a request for the page would do now. */
  function Owed(w: World, page: string): Effect { Effect(page, Lookup(w.local, page)) }

  predicate Can(w: World, late: bool, act: Act) {
    match act
    case Mark(_) => true
    case PutLocal(page, _) => page in w.pending
    case DeleteLocal(page) => page in w.pending
    case Request(page, _) => page in w.pending
    case Clear(page) => page in w.acked
    case ApplyLate(e) => late && e in w.unresolved
  }

  function Perform(w: World, act: Act): World {
    match act
    case Mark(page) => w.(pending := w.pending + {page})
    case PutLocal(page, policy) => w.(local := w.local[page := policy], acked := w.acked - {page})
    case DeleteLocal(page) => w.(local := w.local - {page}, acked := w.acked - {page})
    case Request(page, reply) =>
      (match reply
       case Acknowledged => w.(store := Updated(w.store, Owed(w, page)), acked := w.acked + {page})
       case FailedApplied => w.(store := Updated(w.store, Owed(w, page)))
       case FailedNotApplied => w.(unresolved := w.unresolved + {Owed(w, page)}))
    case Clear(page) => w.(pending := w.pending - {page})
    case ApplyLate(e) => w.(store := Updated(w.store, e))
  }

  predicate Agree(w: World, page: string) { Lookup(w.local, page) == Lookup(w.store, page) }

  /** A page whose policies differ owes a publication. */
  ghost predicate NoSilentDivergence(w: World) {
    forall page :: Agree(w, page) || page in w.pending
  }

  ghost predicate Inv(w: World) {
    forall page :: (page in w.acked ==> Agree(w, page)) && (Agree(w, page) || page in w.pending)
  }

  lemma ActKeeps(w: World, act: Act)
    requires Inv(w) && Can(w, false, act)
    ensures Inv(Perform(w, act))
  {
  }

  // ---------------------------------------------------------------- all runs

  predicate Trace(w: World, late: bool, acts: seq<Act>)
    decreases |acts|
  {
    acts == [] || (Can(w, late, acts[0]) && Trace(Perform(w, acts[0]), late, acts[1..]))
  }

  function Execute(w: World, acts: seq<Act>): World
    decreases |acts|
  {
    if acts == [] then w else Execute(Perform(w, acts[0]), acts[1..])
  }

  lemma {:induction false} TraceKeeps(w: World, acts: seq<Act>)
    requires Inv(w) && Trace(w, false, acts)
    ensures Inv(Execute(w, acts))
    decreases |acts|
  {
    if acts != [] {
      ActKeeps(w, acts[0]);
      TraceKeeps(Perform(w, acts[0]), acts[1..]);
    }
  }

  /** A policy whose update timed out and was rolled back and republished, until the lost request
      arrives after all. */
  function LateRun(page: string): seq<Act> {
    [Mark(page), PutLocal(page, "old"), Request(page, Acknowledged), PutLocal(page, "new"),
     Request(page, FailedNotApplied), PutLocal(page, "old"), Request(page, Acknowledged), Clear(page),
     ApplyLate(Effect(page, Some("new")))]
  }

  /** The states along that run. */
  function LateWorlds(page: string): seq<World> {
    var w1 := START.(pending := {page});
    var w2 := w1.(local := map[page := "old"]);
    var w3 := w2.(store := map[page := "old"], acked := {page});
    var w4 := w3.(local := map[page := "new"], acked := {});
    var w5 := w4.(unresolved := {Effect(page, Some("new"))});
    var w6 := w5.(local := map[page := "old"]);
    var w7 := w6.(acked := {page});
    var w8 := w7.(pending := {});
    [START, w1, w2, w3, w4, w5, w6, w7, w8, w8.(store := map[page := "new"])]
  }

  lemma LateStep(page: string, i: nat)
    requires i < 9
    ensures Leads(LateWorlds(page)[i], LateRun(page)[i], LateWorlds(page)[i + 1])
  {
  }

  lemma LateRunDiverges(page: string)
    ensures Trace(START, true, LateRun(page)) && !NoSilentDivergence(Execute(START, LateRun(page)))
  {
    var worlds, acts := LateWorlds(page), LateRun(page);
    forall i | 0 <= i < 9
      ensures Leads(worlds[i], acts[i], worlds[i + 1])
    {
      LateStep(page, i);
    }
    Chained(worlds, acts, 0);
    assert acts[0..] == acts;
    assert !Agree(worlds[9], page);
  }

  predicate Leads(w: World, act: Act, w': World) { Can(w, true, act) && Perform(w, act) == w' }

  lemma {:induction false} Chained(worlds: seq<World>, acts: seq<Act>, i: nat)
    requires |worlds| == |acts| + 1 && i <= |acts|
    requires forall j :: 0 <= j < |acts| ==> Leads(worlds[j], acts[j], worlds[j + 1])
    ensures Trace(worlds[i], true, acts[i..]) && Execute(worlds[i], acts[i..]) == worlds[|acts|]
    decreases |acts| - i
  {
    if i < |acts| {
      assert Leads(worlds[i], acts[i], worlds[i + 1]);
      assert acts[i..][0] == acts[i] && acts[i..][1..] == acts[i + 1..];
      Chained(worlds, acts, i + 1);
    }
  }

  /** Policies never differ silently, in any run and at any crash point, if a request that failed is
      never applied later, and that condition cannot be dropped: without it some run ends so. */
  lemma DivergenceIsNeverSilentExactly(late: bool)
    ensures (forall acts :: Trace(START, late, acts) ==> NoSilentDivergence(Execute(START, acts))) <==> !late
  {
    if late {
      LateRunDiverges("home");
    } else {
      forall acts | Trace(START, late, acts)
        ensures NoSilentDivergence(Execute(START, acts))
      {
        TraceKeeps(START, acts);
      }
    }
  }

  lemma {:induction false} TraceAppend(w: World, acts: seq<Act>, act: Act)
    requires Trace(w, false, acts) && Can(Execute(w, acts), false, act)
    ensures Trace(w, false, acts + [act]) && Execute(w, acts + [act]) == Perform(Execute(w, acts), act)
    decreases |acts|
  {
    if acts == [] {
      assert acts + [act] == [act] && [act][1..] == [];
    } else {
      TraceAppend(Perform(w, acts[0]), acts[1..], act);
      assert (acts + [act])[1..] == acts[1..] + [act];
    }
  }

  /** `acts` is a recorded run that leads from the start to `w`. */
  ghost predicate Recorded(acts: seq<Act>, w: World) {
    forall start :: start == START ==> Trace(start, false, acts) && Execute(start, acts) == w
  }

  lemma RecordedAppend(acts: seq<Act>, w: World, act: Act)
    requires Recorded(acts, w) && Can(w, false, act)
    ensures Recorded(acts + [act], Perform(w, act))
  {
    assert Trace(START, false, acts);
    TraceAppend(START, acts, act);
  }

  // ---------------------------------------------------------------- the administrator's process

  /** Whether the marker could be written, how the request ended, whether the marker could be removed. */
  datatype Outcome = Outcome(marked: bool, reply: Reply, cleared: bool)

  datatype End = Published | Exists | NotFound | RolledBack | Unprepared

  /** The administrator's operations.  Each is performed under the page's lock, so no other
      operation on the same page comes in between. */
  class Administrator {
    var local: map<string, Policy>
    var pending: set<string>
    ghost var world: World
    ghost var log: seq<Act>

    ghost predicate Valid()
      reads this
    {
      Recorded(log, world) && world.local == local && world.pending == pending
    }

    constructor ()
      ensures Valid() && world == START
    {
      local, pending := map[], {};
      world, log := START, [];
    }

    ghost method Do(act: Act)
      requires Recorded(log, world) && Can(world, false, act)
      modifies this`world, this`log
      ensures Recorded(log, world) && world == Perform(old(world), act) && log == old(log) + [act]
    {
      RecordedAppend(log, world, act);
      world, log := Perform(world, act), log + [act];
    }

    /** At every point of every operation a difference is owed. */
    lemma NeverSilent(page: string)
      requires Valid()
      ensures Agree(world, page) || page in pending
    {
      assert Trace(START, false, log);
      TraceKeeps(START, log);
    }

    /** prepare: the marker, or an error before anything was changed. */
    method Prepare(page: string, ok: bool)
      requires Valid()
      modifies this`pending, this`world, this`log
      ensures Valid() && old(log) <= log && world.store == old(world).store
      ensures pending == if ok then old(pending) + {page} else old(pending)
    {
      if ok {
        Do(Mark(page));
        pending := pending + {page};
      }
    }

    method Put(page: string, policy: Policy)
      requires Valid() && page in pending
      modifies this`local, this`world, this`log
      ensures Valid() && old(log) <= log && world.store == old(world).store && local == old(local)[page := policy]
    {
      Do(PutLocal(page, policy));
      local := local[page := policy];
    }

    method Remove(page: string)
      requires Valid() && page in pending
      modifies this`local, this`world, this`log
      ensures Valid() && old(log) <= log && world.store == old(world).store && local == old(local) - {page}
    {
      Do(DeleteLocal(page));
      local := local - {page};
    }

    /** publish, or delete when the page is gone: the marker again, the request, and, if it was
        acknowledged, the removal of the marker, which may fail and leave it behind. */
    method Publish(page: string, marked: bool, reply: Reply, cleared: bool) returns (ok: bool)
      requires Valid()
      modifies this`pending, this`world, this`log
      ensures Valid() && old(log) <= log
      ensures ok <==> marked && reply.Acknowledged?
      ensures pending == if !marked then old(pending) else if ok && cleared then old(pending) - {page} else old(pending) + {page}
      ensures world.store == if marked && !reply.FailedNotApplied? then Updated(old(world).store, Effect(page, Lookup(local, page)))
                             else old(world).store
    {
      Prepare(page, marked);
      if !marked {
        return false;
      }
      Do(Request(page, reply));
      if !reply.Acknowledged? {
        return false;
      }
      if cleared {
        Do(Act.Clear(page));
        pending := pending - {page};
      }
      ok := true;
    }

    /** Create: a page that could not be published is deleted again. */
    method Create(page: string, policy: Policy, prepared: bool, marked: bool, reply: Reply, cleared: bool) returns (end: End)
      requires Valid()
      modifies this`local, this`pending, this`world, this`log
      ensures Valid() && old(log) <= log
      ensures end == if !prepared then Unprepared else if page in old(local) then Exists
                     else if marked && reply.Acknowledged? then Published else RolledBack
      ensures local == if end.Published? then old(local)[page := policy] else old(local)
      ensures end.Published? ==> Agree(world, page) && (cleared ==> page !in pending)
      ensures end.RolledBack? ==> page in pending
      ensures end.Unprepared? ==> pending == old(pending) && world.store == old(world).store
      ensures end.Exists? ==> pending == old(pending) + {page} && world.store == old(world).store
    {
      Prepare(page, prepared);
      if !prepared {
        return Unprepared;
      }
      if page in local {
        return Exists;
      }
      Put(page, policy);
      var ok := Publish(page, marked, reply, cleared);
      if !ok {
        Remove(page);
        assert local == old(local);
        return RolledBack;
      }
      end := Published;
    }

    /** Update: a change that could not be published is replaced by what was there before. */
    method Update(page: string, policy: Policy, prepared: bool, marked: bool, reply: Reply, cleared: bool) returns (end: End)
      requires Valid()
      modifies this`local, this`pending, this`world, this`log
      ensures Valid() && old(log) <= log
      ensures end == if page !in old(local) then NotFound else if !prepared then Unprepared
                     else if marked && reply.Acknowledged? then Published else RolledBack
      ensures local == if end.Published? then old(local)[page := policy] else old(local)
      ensures end.Published? ==> Agree(world, page) && (cleared ==> page !in pending)
      ensures end.RolledBack? ==> page in pending
      ensures end.NotFound? || end.Unprepared? ==> pending == old(pending) && world.store == old(world).store
    {
      if page !in local {
        return NotFound;
      }
      var previous := local[page];
      Prepare(page, prepared);
      if !prepared {
        return Unprepared;
      }
      Put(page, policy);
      var ok := Publish(page, marked, reply, cleared);
      if !ok {
        Put(page, previous);
        assert local == old(local);
        return RolledBack;
      }
      end := Published;
    }

    /** Delete: the local deletion stands even if the store could not be told. */
    method Delete(page: string, prepared: bool, marked: bool, reply: Reply, cleared: bool) returns (end: End)
      requires Valid()
      modifies this`local, this`pending, this`world, this`log
      ensures Valid() && old(log) <= log
      ensures end == if page !in old(local) then NotFound else if !prepared then Unprepared else Published
      ensures local == if end.Published? then old(local) - {page} else old(local)
      ensures end.Published? && !(marked && reply.Acknowledged?) ==> page in pending
      ensures end.Published? && marked && reply.Acknowledged? ==> Agree(world, page) && (cleared ==> page !in pending)
    {
      if page !in local {
        return NotFound;
      }
      Prepare(page, prepared);
      if !prepared {
        return Unprepared;
      }
      Remove(page);
      var _ := Publish(page, marked, reply, cleared);
      end := Published;
    }

    /** One page's turn. */
    method RetryOne(page: string, marked: bool, reply: Reply, cleared: bool) returns (ok: bool)
      requires Valid() && page in pending
      modifies this`pending, this`world, this`log
      ensures Valid() && old(log) <= log
      ensures ok <==> marked && reply.Acknowledged?
      ensures if ok then Agree(world, page) && (cleared ==> page !in pending) else page in pending
      ensures forall q :: q != page ==> (q in pending <==> q in old(pending)) && (Agree(world, q) <==> Agree(old(world), q))
    {
      ok := Publish(page, marked, reply, cleared);
    }

    /** The page agrees with the store and, if its marker could be removed, owes nothing. */
    ghost predicate Settled(page: string, o: Outcome)
      reads this
    {
      Agree(world, page) && (o.cleared ==> page !in pending)
    }

    /** retry_pending_policies, whose first failure ends the round.  Every page it got to is settled. */
    method Retry(pages: seq<string>, outcomes: seq<Outcome>) returns (done: nat)
      requires Valid() && |outcomes| == |pages| && forall i :: 0 <= i < |pages| ==> pages[i] in pending
      requires forall i, j :: 0 <= i < j < |pages| ==> pages[i] != pages[j]
      modifies this`pending, this`world, this`log
      ensures Valid() && old(log) <= log && done <= |pages|
      ensures forall i :: 0 <= i < done ==> Settled(pages[i], outcomes[i])
      ensures forall i :: done <= i < |pages| ==> pages[i] in pending
      ensures done < |pages| ==> !(outcomes[done].marked && outcomes[done].reply.Acknowledged?)
      ensures forall page :: page !in pages ==> (page in pending <==> page in old(pending))
    {
      done := 0;
      while done < |pages|
        invariant done <= |pages| && Valid() && old(log) <= log
        invariant forall i :: 0 <= i < done ==> Settled(pages[i], outcomes[i])
        invariant forall i :: done <= i < |pages| ==> pages[i] in pending
        invariant forall page :: page !in pages ==> (page in pending <==> page in old(pending))
      {
        var o := outcomes[done];
        var ok := RetryOne(pages[done], o.marked, o.reply, o.cleared);
        if !ok {
          return;
        }
        done := done + 1;
      }
    }
  }
}
