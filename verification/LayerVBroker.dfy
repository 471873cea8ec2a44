/** The broker's operations on grants, statement by statement, with the Gateway and the clock
    moving in between.  Each is shown to perform only acts the protocol allows, so every state
    it passes through, and every state a crash leaves, is one of `BrokerProtocol`'s runs. */
module LayerVBroker {
  import opened GuestResources
  import opened BrokerProtocol
  import opened Options
  import Backoff

  datatype CreateEnd = Created(mapping: Mapping) | Conflict | NotPublished | MintFailed | Foreign | SaveFailed

  datatype QueueEnd = Pending | Deleted | NotDeleted

  /** What upstream and the disk do during one mint; `matches` tells whether the invitation names
      the resource it was asked for. */
  datatype MintReplies = MintReplies(publish: Reply, serving: bool, minted: bool, matches: bool, qurl: string, save: Reply, revoke: Reply)

  /** Every answer to the mint is a good one. */
  predicate AllWell(r: MintReplies) {
    r.publish.Returned? && r.serving && r.minted && r.matches && r.save.Returned?
  }

  /** The row has a resource, and it is the one the mapping names. */
  predicate Bound(g: State, mappings: map<Key, Mapping>, k: Key) {
    && k in g.rows && g.rows[k].crid.Some?
    && (k in mappings ==> g.rows[k].crid == Some(mappings[k].crid))
  }

  /** A deletion goes through: nothing is left to delete, or the resource is known and it was
      deleted before or its deletion returns. */
  predicate Deletable(g: State, mappings: map<Key, Mapping>, k: Key, reply: Reply) {
    (k !in mappings && k !in g.rows) || Closable(g, mappings, k, reply)
  }

  predicate Closable(g: State, mappings: map<Key, Mapping>, k: Key, reply: Reply) {
    Bound(g, mappings, k) && (g.rows[k].phase.Revoked? || reply.Returned?)
  }

  /** A resource is published for the row that is there or would be written, and no other row has it. */
  predicate Bindable(g: State, service: Connector -> Crid, installation: string, k: Key, r: MintReplies) {
    r.publish.Returned? && Unclaimed(g, service(if k in g.rows then g.rows[k].connector else ConnectorFor(g, installation, k)))
  }

  /** The phase in which an allocation leaves the row, whether or not it succeeds. */
  function PhaseLeft(g: State, service: Connector -> Crid, installation: string, k: Key, target: string, r: MintReplies): Phase {
    if k in g.rows && (g.rows[k].target != target || !g.rows[k].phase.Creating?) then g.rows[k].phase
    else if Bindable(g, service, installation, k, r) then Ready else Creating
  }

  /** An allocation succeeds: the row is, or can be made, that of a ready resource for the target. */
  predicate Ensurable(g: State, service: Connector -> Crid, installation: string, k: Key, target: string, r: MintReplies) {
    && r.serving
    && (k in g.rows ==> g.rows[k].target == target)
    && (k !in g.rows || HasRow(g, k, Creating) ==> Bindable(g, service, installation, k, r))
    && !HasRow(g, k, Retiring) && !HasRow(g, k, Revoked)
  }

  predicate Unclaimed(g: State, crid: Crid) {
    forall j :: j in g.rows ==> g.rows[j].crid != Some(crid)
  }

  lemma InsertClaimsNothing(g: State, g': State, k: Key, crid: Crid)
    requires k !in g.rows && k in g'.rows && g'.rows[k].crid.None? && g'.rows == g.rows[k := g'.rows[k]]
    ensures Unclaimed(g', crid) <==> Unclaimed(g, crid)
  {
    forall j | j in g.rows
      ensures j in g'.rows && g'.rows[j] == g.rows[j]
    {
    }
  }

  /** One turn of the drain: what had happened before and after it, and the states. */
  datatype Moment = Moment(done: seq<Act>, world: World, then_: seq<Act>, after: World)

  /** What the drain knows of an entry besides its key, and how its deletion will be answered. */
  datatype Due = Due(key: Key, reply: Reply, retryAfter: nat, attempts: nat)

  class Broker {
    const config: Config
    const installation: string
    /** The CRID upstream gives the resource of a connector id. */
    const service: Connector -> Crid
    var g: State
    var mappings: map<Key, Mapping>
    var queue: map<Key, int>
    var listed: map<Key, Mapping>
    var clock: int
    ghost var world: World
    ghost var log: seq<Act>

    ghost predicate Valid()
      reads this
    {
      && RecordedWorld(config, log, world)
      && world.g == g && world.mappings == mappings && world.queue == queue
      && world.listed == listed && world.now == clock
      && (forall c :: c in g.published ==> g.published[c] == service(c))
    }

    constructor (config: Config, installation: string, service: Connector -> Crid)
      ensures Valid() && this.config == config && world == START
    {
      this.config, this.installation, this.service := config, installation, service;
      g, mappings, queue, listed, clock := EMPTY, map[], map[], map[], 0;
      world, log := START, [];
    }

    lemma BoundRow(k: Key)
      requires Valid() && Bound(g, mappings, k)
      ensures !g.rows[k].phase.Creating?
    {
      ResourceRunsAreSound();
      assert RowOk(g, k);
    }

    /** Records an act whose effect on the fields follows at once. */
    ghost method Do(act: Act)
      requires RecordedWorld(config, log, world) && Can(world, config, act)
      modifies this`world, this`log
      ensures RecordedWorld(config, log, world)
      ensures world == Perform(old(world), config, act) && log == old(log) + [act]
    {
      RecordedAct(config, log, world, act);
      world, log := Perform(world, config, act), log + [act];
    }

    /** The promise kept in every state of the broker. */
    lemma Isolated()
      requires Valid() && config.gatewayVisible && config.window <= DEFER_SECONDS
      ensures ListedIntact(world)
    {
      assert Trace(START, config, log);
      ListedGrantsAreNeverRetired(config, log);
    }

    /** Time passes, and the Gateway commits, drops and asks to delete grants as it likes.  The
        caller knows no more than this about what happened. */
    method Others()
      requires Valid()
      modifies this`queue, this`listed, this`clock, this`world, this`log
      ensures Valid() && old(log) <= log && world.offers == old(world).offers
      ensures world.thread == old(world.thread) && clock >= old(clock)
      ensures QueueKept(old(queue), old(clock))
    {
    }

    /** Entries of the deferred queue stay; new ones are due 15 seconds on. */
    ghost predicate QueueKept(before: map<Key, int>, since: int)
      reads this
    {
      && (forall k :: k in before ==> k in queue && queue[k] == before[k])
      && (forall k :: k in queue && k !in before ==> queue[k] >= since + DEFER_SECONDS)
    }

    method Step(step: GuestResources.Step)
      requires Valid() && ThreadSteps(world.thread, step) && Allowed(g, step)
      requires step.Publish? ==> step.crid == service(g.rows[step.key].connector)
      modifies this`g, this`world, this`log
      ensures Valid() && g == Apply(old(g), step) && log == old(log) + [Resource(step)]
      ensures world.thread == old(world.thread) && world.offers == old(world).offers
    {
      Do(Resource(step));
      g := Apply(g, step);
    }

    lemma ResourceRunsAreSound()
      requires Valid()
      ensures Inv(g)
    {
      EmptyOk();
      assert Trace(START, config, log);
      RowsStaySound(START, config, log);
    }

    /** The transaction that marks the row and queues its retirement. */
    method MarkRow(k: Key, crid: Crid)
      requires Valid() && world.thread == Revoking(k)
      requires (HasRow(g, k, Ready) || HasRow(g, k, Retiring)) && g.rows[k].crid == Some(crid)
      modifies this`g, this`world, this`log
      ensures Valid() && old(log) <= log && world.offers == old(world).offers && world.thread == Revoking(k)
      ensures HasRow(g, k, Retiring) && g.rows[k].crid == Some(crid)
    {
      Step(MarkRetiring(k, "", clock));
    }

    method CallDelete(k: Key, crid: Crid, reply: Reply)
      requires Valid() && world.thread == Revoking(k) && HasRow(g, k, Retiring) && g.rows[k].crid == Some(crid)
      modifies this`g, this`world, this`log
      ensures Valid() && old(log) <= log && world.offers == old(world).offers && world.thread == Revoking(k)
      ensures HasRow(g, k, Retiring) && g.rows[k].crid == Some(crid)
      ensures reply.Returned? ==> crid in g.confirmed
    {
      Step(Delete(k, reply));
    }

    method CloseRow(k: Key, crid: Crid)
      requires Valid() && world.thread == Revoking(k) && HasRow(g, k, Retiring) && g.rows[k].crid == Some(crid)
      requires crid in g.confirmed
      modifies this`g, this`world, this`log
      ensures Valid() && old(log) <= log && world.offers == old(world).offers && world.thread == Revoking(k) && HasRow(g, k, Revoked)
      ensures g.rows[k].crid == Some(crid)
    {
      Step(FinishRevoke(k));
    }

    /** revoke, for the thread that holds the lock for `k`; the mapping, if there is one, must
        name the row's resource. */
    method RevokeRow(k: Key, reply: Reply) returns (closed: bool)
      requires Valid() && world.thread == Revoking(k)
      modifies this`g, this`queue, this`listed, this`clock, this`world, this`log
      ensures Valid() && old(log) <= log && world.offers == old(world).offers && world.thread == Revoking(k) && clock >= old(clock)
      ensures closed <==> Closable(old(g), mappings, k, reply)
      ensures closed ==> HasRow(g, k, Revoked)
      ensures k in mappings && (k !in old(g).rows || old(g).rows[k].crid != Some(mappings[k].crid)) ==> !closed && g == old(g)
      ensures !closed && Bound(old(g), mappings, k) ==> HasRow(g, k, Retiring)
      ensures k in old(g).rows && old(g).rows[k].crid.Some? ==> k in g.rows && g.rows[k].crid == old(g).rows[k].crid
      ensures QueueKept(old(queue), old(clock))
    {
      if !Bound(g, mappings, k) {
        return false;
      }
      if g.rows[k].phase.Revoked? {
        return true;
      }
      BoundRow(k);
      var crid := g.rows[k].crid.value;
      MarkRow(k, crid);
      Others();
      CallDelete(k, crid, reply);
      if !reply.Returned? {
        return false;
      }
      Others();
      CloseRow(k, crid);
      closed := true;
    }

    /** delete_grant, once the lock is held for `k`. */
    method DeleteGrant(k: Key, reply: Reply) returns (deleted: bool)
      requires Valid() && world.thread == Revoking(k)
      modifies this`g, this`mappings, this`queue, this`listed, this`clock, this`world, this`log
      ensures Valid() && old(log) <= log && world.offers == old(world).offers && world.thread == Idle && clock >= old(clock)
      ensures deleted ==> k !in mappings && (k in g.rows || k in old(g).rows ==> HasRow(g, k, Revoked))
      ensures deleted <==> Deletable(old(g), old(mappings), k, reply)
      ensures QueueKept(old(queue), old(clock))
    {
      if k !in mappings && k !in g.rows {
        Release();
        return true;
      }
      var closed := RevokeRow(k, reply);
      if closed {
        Do(RemoveMapping);
        mappings := mappings - {k};
      }
      Release();
      deleted := closed;
    }

    /** The lock is released, by returning or by dying. */
    method Release()
      requires Valid()
      modifies this`world, this`log
      ensures Valid() && log == old(log) + [Crash] && world == old(world).(thread := Idle)
    {
      Do(Crash);
    }

    method BeginMint(k: Key)
      requires Valid() && world.thread == Idle && k.owner.Guest? && k !in mappings
      modifies this`world, this`log
      ensures Valid() && old(log) <= log && world.offers == old(world).offers && world.thread == Minting(k)
    {
      Do(Act.BeginMint(k));
    }

    method Own(k: Key, target: string)
      requires Valid() && world.thread == Minting(k) && k !in g.rows && k.owner.Guest?
      modifies this`g, this`world, this`log
      ensures Valid() && old(log) <= log && world.offers == old(world).offers && world.thread == Minting(k)
      ensures HasRow(g, k, Creating) && g.rows[k].target == target
      ensures g.rows[k].connector == ConnectorFor(old(g), installation, k)
      ensures Unclaimed(g, service(g.rows[k].connector)) <==> Unclaimed(old(g), service(g.rows[k].connector))
    {
      Step(Insert(k, installation, target, clock));
      InsertClaimsNothing(old(g), g, k, service(g.rows[k].connector));
    }

    method PublishOwned(k: Key)
      requires Valid() && world.thread == Minting(k) && HasRow(g, k, Creating)
      modifies this`g, this`world, this`log
      ensures Valid() && old(log) <= log && world.offers == old(world).offers && world.thread == Minting(k) && g.rows == old(g).rows
      ensures g.rows[k].connector in g.published
    {
      Step(Publish(k, service(g.rows[k].connector)));
    }

    /** The UNIQUE constraint refuses a resource that another row holds. */
    method Bind(k: Key) returns (bound: bool)
      requires Valid() && world.thread == Minting(k) && HasRow(g, k, Creating) && g.rows[k].connector in g.published
      modifies this`g, this`world, this`log
      ensures Valid() && old(log) <= log && world.offers == old(world).offers && world.thread == Minting(k) && k in g.rows
      ensures bound ==> g.rows[k].crid.Some?
      ensures HasRow(g, k, if bound then Ready else Creating)
      ensures bound <==> Unclaimed(old(g), service(old(g).rows[k].connector))
    {
      var crid := service(g.rows[k].connector);
      bound := forall j :: j in g.rows ==> g.rows[j].crid != Some(crid);
      if bound {
        Step(CommitReady(k));
      }
    }

    /** Publishes the connector id of a row still being created, and binds what came back. */
    method PublishAndBind(k: Key, r: MintReplies) returns (ready: bool)
      requires Valid() && world.thread == Minting(k) && HasRow(g, k, Creating)
      modifies this`g, this`queue, this`listed, this`clock, this`world, this`log
      ensures Valid() && old(log) <= log && world.offers == old(world).offers && world.thread == Minting(k) && k in g.rows
      ensures ready <==> r.serving && Bindable(old(g), service, installation, k, r)
      ensures HasRow(g, k, if Bindable(old(g), service, installation, k, r) then Ready else Creating)
      ensures ready ==> g.rows[k].crid.Some?
    {
      Others();
      if r.publish.FailedNotApplied? {
        return false;
      }
      PublishOwned(k);
      Others();
      if r.publish.FailedApplied? {
        return false;
      }
      var bound := Bind(k);
      ready := bound && r.serving;
    }

    /** ensure, for a grant of its own: write the row, publish its connector id, bind the result. */
    method EnsureReady(k: Key, target: string, r: MintReplies) returns (ready: bool)
      requires Valid() && world.thread == Minting(k) && k.owner.Guest?
      modifies this`g, this`queue, this`listed, this`clock, this`world, this`log
      ensures Valid() && old(log) <= log && world.offers == old(world).offers && world.thread == Minting(k) && k in g.rows
      ensures ready <==> Ensurable(old(g), service, installation, k, target, r)
      ensures HasRow(g, k, PhaseLeft(old(g), service, installation, k, target, r))
      ensures ready ==> HasRow(g, k, Ready) && g.rows[k].crid.Some?
    {
      if k !in g.rows {
        Own(k, target);
      }
      if g.rows[k].target != target || g.rows[k].phase.Retiring? || g.rows[k].phase.Revoked? {
        return false;
      }
      if g.rows[k].phase.Creating? {
        ready := PublishAndBind(k, r);
        return;
      }
      ResourceRunsAreSound();
      assert RowOk(g, k);
      ready := r.serving;
    }

    /** create_grant: own, publish, mint the invitation, save its mapping, answer. */
    method CreateGrant(k: Key, target: string, r: MintReplies) returns (end: CreateEnd)
      requires Valid() && world.thread == Idle && k.owner.Guest?
      modifies this`g, this`mappings, this`queue, this`listed, this`clock, this`world, this`log
      ensures Valid() && old(log) <= log && world.thread == Idle
      ensures end.Conflict? <==> k in old(mappings)
      ensures !end.Conflict? ==> (end.NotPublished? <==> !Ensurable(old(g), service, installation, k, target, r))
      ensures !end.Conflict? && !end.NotPublished? ==> Ended(end, r)
      ensures !end.Conflict? && k !in old(g).rows && AllWell(r) && Unclaimed(old(g), service(ConnectorFor(old(g), installation, k))) ==> end.Created?
      ensures end.Created? ==> Granted(k, end.mapping)
      ensures !end.Created? ==> world.offers == old(world).offers
      ensures end.MintFailed? || end.SaveFailed? ==> HasRow(g, k, if r.revoke.Returned? then Revoked else Retiring)
      ensures end.Foreign? ==> HasRow(g, k, Ready)
      ensures end.NotPublished? ==> HasRow(g, k, PhaseLeft(old(g), service, installation, k, target, r))
      ensures end.Conflict? ==> g == old(g)
      ensures !end.Created? && !end.SaveFailed? ==> mappings == old(mappings)
      ensures end.Created? || end.SaveFailed? ==> mappings - {k} == old(mappings)
      ensures end.SaveFailed? ==> (k in mappings <==> r.save.FailedApplied?)
      ensures end.SaveFailed? && k in mappings ==> mappings[k].qurl == r.qurl && g.rows[k].crid == Some(mappings[k].crid)
      ensures end.Created? ==> end.mapping.qurl == r.qurl
    {
      if k in mappings {
        return Conflict;
      }
      BeginMint(k);
      var ready := EnsureReady(k, target, r);
      if !ready {
        Release();
        return NotPublished;
      }
      Others();
      end := Invite(k, r);
      assert mappings - {k} == old(mappings) - {k} == old(mappings);
    }

    /** How the tail of a mint ends. */
    ghost predicate Ended(end: CreateEnd, r: MintReplies) {
      match end
      case MintFailed => !r.minted
      case Foreign => r.minted && !r.matches
      case SaveFailed => r.minted && r.matches && !r.save.Returned?
      case Created(_) => r.minted && r.matches && r.save.Returned?
      case _ => false
    }

    /** The answer names a mapping that is on disk, of a ready resource. */
    ghost predicate Granted(k: Key, m: Mapping)
      reads this
    {
      && k in mappings && mappings[k] == m && HasRow(g, k, Ready) && g.rows[k].crid == Some(m.crid)
      && k in world.offers && world.offers[k] == Offer(m, clock)
    }

    method Compensate(k: Key)
      requires Valid() && world.thread == Minting(k)
      modifies this`world, this`log
      ensures Valid() && old(log) <= log && world.offers == old(world).offers && world.thread == Revoking(k)
    {
      Do(Act.Compensate);
    }

    method Save(k: Key, qurl: string) returns (m: Mapping)
      requires Valid() && world.thread == Minting(k) && HasRow(g, k, Ready) && g.rows[k].crid.Some?
      modifies this`mappings, this`world, this`log
      ensures Valid() && old(log) <= log && world.thread == Idle
      ensures mappings == old(mappings)[k := m] && m.qurl == qurl && Granted(k, m)
    {
      Do(SaveMapping(qurl));
      m := Mapping(qurl, g.rows[k].crid.value);
      mappings := mappings[k := m];
    }

    /** The file is there although writing it was reported to fail. */
    method SaveUnconfirmed(k: Key, qurl: string)
      requires Valid() && world.thread == Minting(k) && HasRow(g, k, Ready) && g.rows[k].crid.Some?
      modifies this`mappings, this`world, this`log
      ensures Valid() && old(log) <= log && world.offers == old(world).offers && world.thread == Revoking(k)
      ensures mappings == old(mappings)[k := Mapping(qurl, g.rows[k].crid.value)]
    {
      Do(Act.SaveFailed(qurl));
      mappings := mappings[k := Mapping(qurl, g.rows[k].crid.value)];
    }

    /** The resource of a mint that failed is retired, and its independent retry is on record if
        that fails too. */
    method TakeBack(k: Key, reply: Reply)
      requires Valid() && world.thread == Revoking(k) && HasRow(g, k, Ready) && Bound(g, mappings, k)
      modifies this`g, this`queue, this`listed, this`clock, this`world, this`log
      ensures Valid() && old(log) <= log && world.offers == old(world).offers && world.thread == Idle
      ensures HasRow(g, k, if reply.Returned? then Revoked else Retiring) && g.rows[k].crid == old(g).rows[k].crid
    {
      var _ := RevokeRow(k, reply);
      Release();
    }

    /** The tail of create_grant, for a ready resource. */
    method Invite(k: Key, r: MintReplies) returns (end: CreateEnd)
      requires Valid() && world.thread == Minting(k) && HasRow(g, k, Ready) && g.rows[k].crid.Some? && k !in mappings
      modifies this`g, this`mappings, this`queue, this`listed, this`clock, this`world, this`log
      ensures Valid() && old(log) <= log && world.thread == Idle && !end.Conflict? && !end.NotPublished?
      ensures Ended(end, r)
      ensures end.Created? ==> Granted(k, end.mapping)
      ensures !end.Created? ==> world.offers == old(world).offers
      ensures end.MintFailed? || end.SaveFailed? ==> HasRow(g, k, if r.revoke.Returned? then Revoked else Retiring)
      ensures end.Foreign? ==> HasRow(g, k, Ready)
      ensures end.MintFailed? || end.Foreign? ==> mappings == old(mappings)
      ensures mappings - {k} == old(mappings) - {k}
      ensures end.SaveFailed? ==> (k in mappings <==> r.save.FailedApplied?)
      ensures end.SaveFailed? && k in mappings ==> mappings[k].qurl == r.qurl && g.rows[k].crid == Some(mappings[k].crid)
      ensures end.Created? ==> end.mapping.qurl == r.qurl
    {
      if !r.minted {
        Compensate(k);
        TakeBack(k, r.revoke);
        return MintFailed;
      }
      if !r.matches {
        Release();
        return Foreign;
      }
      if !r.save.Returned? {
        if r.save.FailedApplied? {
          SaveUnconfirmed(k, r.qurl);
        } else {
          Compensate(k);
        }
        TakeBack(k, r.revoke);
        return CreateEnd.SaveFailed;
      }
      var m := Save(k, r.qurl);
      end := Created(m);
    }

    method Pick(k: Key)
      requires Valid() && world.thread == Idle && k in queue && queue[k] <= clock
      requires !(config.gatewayVisible && GrantLive(k))
      modifies this`world, this`log
      ensures Valid() && old(log) <= log && world.offers == old(world).offers && world.thread == Revoking(k)
    {
      Do(DrainPick(k));
    }

    /** The entry of a deletion that went through. */
    method Drop(k: Key)
      requires Valid() && world.thread == Idle && k !in mappings
      modifies this`queue, this`world, this`log
      ensures Valid() && old(log) <= log && world.offers == old(world).offers && world.thread == Idle && queue == old(queue) - {k}
    {
      Do(Unqueue(k));
      queue := queue - {k};
    }

    method PutOff(k: Key, due: int)
      requires Valid() && world.thread == Idle && k in queue && queue[k] <= due
      modifies this`queue, this`world, this`log
      ensures Valid() && old(log) <= log && world.offers == old(world).offers && world.thread == Idle && queue == old(queue)[k := due]
    {
      Do(Requeue(k, due));
      queue := queue[k := due];
    }

    /** _gateway_grant_live, of the files as they are now. */
    predicate GrantLive(k: Key)
      reads this
    {
      k in mappings && (!config.gatewayVisible || (k in listed && listed[k] == mappings[k]))
    }

    /** One due deferred revocation: skipped while the grant is live, otherwise deleted, or put
        off when the deletion fails. */
    method DrainOne(k: Key, reply: Reply, retryAfter: nat, attempts: nat) returns (skipped: bool)
      requires Valid() && world.thread == Idle && k in queue && queue[k] <= clock
      modifies this`g, this`mappings, this`queue, this`listed, this`clock, this`world, this`log
      ensures Valid() && old(log) <= log && world.offers == old(world).offers && world.thread == Idle && clock >= old(clock)
      ensures skipped <==> config.gatewayVisible && old(GrantLive(k))
      ensures skipped ==> world == old(world)
      ensures !skipped ==> k !in queue || queue[k] >= old(clock) + Backoff.RevocationDelay(retryAfter, attempts)
      ensures !skipped ==> (k !in queue <==> Deletable(old(g), old(mappings), k, reply))
      ensures !skipped && k !in queue ==> k !in mappings && (k in g.rows ==> HasRow(g, k, Revoked))
      ensures forall j :: j != k && j in old(queue) ==> j in queue && queue[j] == old(queue)[j]
      ensures forall j :: j != k && j in queue && j !in old(queue) ==> queue[j] > old(clock)
    {
      if config.gatewayVisible && GrantLive(k) {
        return true;
      }
      Pick(k);
      var deleted := DeleteGrant(k, reply);
      if deleted {
        Drop(k);
      } else {
        PutOff(k, clock + Backoff.RevocationDelay(retryAfter, attempts));
      }
      skipped := false;
    }

    /** queue_revocation: a grant that is mapped is queued once and keeps its place; one that is
        not is deleted by the resource's own record.  Unless it fails, the deletion is on record or
        done, and stays so in every run from here. */
    method QueueRevocation(k: Key, reply: Reply) returns (end: QueueEnd)
      requires Valid() && world.thread == Idle
      modifies this`g, this`mappings, this`queue, this`listed, this`clock, this`world, this`log
      ensures Valid() && old(log) <= log && world.offers == old(world).offers && world.thread == Idle
      ensures end.Pending? <==> k in old(mappings)
      ensures end.Pending? ==> queue == if k in old(queue) then old(queue) else old(queue)[k := old(clock) + DEFER_SECONDS]
      ensures end.Pending? ==> g == old(g) && mappings == old(mappings)
      ensures end.Deleted? <==> k !in old(mappings) && Deletable(old(g), old(mappings), k, reply)
      ensures !end.NotDeleted? ==> Settled(world, k)
      ensures end.Deleted? && k in old(g).rows ==> HasRow(g, k, Revoked)
    {
      if k in mappings {
        Do(RequestDelete(k));
        if k !in queue {
          queue := queue[k := clock + DEFER_SECONDS];
        }
        return Pending;
      }
      Take(k);
      var deleted := DeleteGrant(k, reply);
      end := if deleted then Deleted else NotDeleted;
    }

    /** The lock is taken for a grant that has no mapping. */
    method Take(k: Key)
      requires Valid() && world.thread == Idle && k !in mappings
      modifies this`world, this`log
      ensures Valid() && old(log) <= log && world.offers == old(world).offers && world.thread == Revoking(k)
    {
      Do(ServeUnmapped(k));
    }

    /** One turn of the drain. */
    method DrainTurn(d: Due, ghost since: seq<Act>) returns (skip: bool, ghost turn: Moment)
      requires Valid() && world.thread == Idle && d.key in queue && queue[d.key] <= clock && since <= log
      modifies this`g, this`mappings, this`queue, this`listed, this`clock, this`world, this`log
      ensures Valid() && old(log) <= log && world.offers == old(world).offers && world.thread == Idle && clock >= old(clock)
      ensures InRun(config, log, since, turn) && TakenRightly(config, d, skip, turn)
      ensures !skip && d.key in queue ==> queue[d.key] > old(clock)
      ensures forall j :: j != d.key && j in old(queue) ==> j in queue && queue[j] == old(queue)[j]
      ensures forall j :: j != d.key && j in queue && j !in old(queue) ==> queue[j] > old(clock)
    {
      turn := Moment(log, world, log, world);
      skip := DrainOne(d.key, d.reply, d.retryAfter, d.attempts);
      turn := turn.(then_ := log, after := world);
    }

    /** drain_revocations: each due entry of the batch gets one turn and no other entry is touched.
        An entry is skipped exactly if the Gateway lists its grant when its turn comes; otherwise
        its grant is deleted and the entry gone, or the deletion failed and it is put off. */
    method DrainRevocations(batch: seq<Due>) returns (skipped: seq<bool>, ghost turns: seq<Moment>)
      requires Valid() && world.thread == Idle && |batch| <= 50
      requires forall i :: 0 <= i < |batch| ==> batch[i].key in queue && queue[batch[i].key] <= clock
      requires forall i, j :: 0 <= i < j < |batch| ==> batch[i].key != batch[j].key
      modifies this`g, this`mappings, this`queue, this`listed, this`clock, this`world, this`log
      ensures Valid() && old(log) <= log && world.offers == old(world).offers && world.thread == Idle
      ensures |skipped| == |batch| && Turned(config, log, old(log), batch, skipped, turns)
      ensures Drained(queue, old(queue), batch, skipped, old(clock))
    {
      skipped, turns := [], [];
      while |skipped| < |batch|
        invariant |skipped| <= |batch| && Valid() && old(log) <= log && world.thread == Idle && clock >= old(clock)
        invariant world.offers == old(world).offers
        invariant Turned(config, log, old(log), batch, skipped, turns)
        invariant Drained(queue, old(queue), batch, skipped, old(clock))
        decreases |batch| - |skipped|
      {
        var i := |skipped|;
        label Turn:
        ghost var turn;
        var skip;
        skip, turn := DrainTurn(batch[i], old(log));
        TurnedMore(config, old@Turn(log), log, old(log), batch, skipped, turns, skip, turn);
        DrainedMore(old@Turn(queue), queue, old(queue), batch, skipped, skip, old(clock));
        skipped, turns := skipped + [skip], turns + [turn];
      }
    }
  }

  /** The turn is a part of the recorded run, after `since`. */
  ghost predicate InRun(c: Config, log: seq<Act>, since: seq<Act>, turn: Moment) {
    && since <= turn.done <= turn.then_ <= log
    && RecordedWorld(c, turn.done, turn.world) && RecordedWorld(c, turn.then_, turn.after)
  }

  /** The entry was skipped exactly if its grant was live when its turn came, and then nothing
      happened.  Otherwise it left the queue exactly if its resource is bound and was closed before
      or its deletion returned, or there was nothing to delete; then the grant has no mapping and
      no row that is not closed.  If it did not leave, it waits out its delay. */
  ghost predicate TakenRightly(c: Config, d: Due, skip: bool, turn: Moment) {
    var k, before, after := d.key, turn.world, turn.after;
    && (skip <==> c.gatewayVisible && k in before.mappings && k in before.listed && before.listed[k] == before.mappings[k])
    && (skip ==> after == before)
    && (!skip && d.reply.Returned? && MappedReady(before, k) ==> k !in after.queue)
    && (!skip ==> (k !in after.queue <==> Deletable(before.g, before.mappings, k, d.reply)))
    && (!skip && k !in after.queue ==> k !in after.mappings && (k in after.g.rows ==> HasRow(after.g, k, Revoked)))
    && (!skip && k in after.queue ==> after.queue[k] >= before.now + Backoff.RevocationDelay(d.retryAfter, d.attempts))
  }

  /** The grant's row is that of the ready resource its mapping names. */
  predicate MappedReady(w: World, k: Key) {
    k in w.mappings && HasRow(w.g, k, Ready) && w.g.rows[k].crid == Some(w.mappings[k].crid)
  }

  ghost predicate Turned(c: Config, log: seq<Act>, since: seq<Act>, batch: seq<Due>, skipped: seq<bool>, turns: seq<Moment>) {
    && |turns| == |skipped| <= |batch|
    && forall i :: 0 <= i < |skipped| ==> InRun(c, log, since, turns[i]) && TakenRightly(c, batch[i], skipped[i], turns[i])
  }

  lemma InRunLater(c: Config, log: seq<Act>, log': seq<Act>, since: seq<Act>, turn: Moment)
    requires InRun(c, log, since, turn) && log <= log'
    ensures InRun(c, log', since, turn)
  {
  }

  lemma TurnedMore(c: Config, log: seq<Act>, log': seq<Act>, since: seq<Act>, batch: seq<Due>, skipped: seq<bool>, turns: seq<Moment>,
                   skip: bool, turn: Moment)
    requires Turned(c, log, since, batch, skipped, turns) && |skipped| < |batch| && log <= log'
    requires InRun(c, log', since, turn) && TakenRightly(c, batch[|skipped|], skip, turn)
    ensures Turned(c, log', since, batch, skipped + [skip], turns + [turn])
  {
    forall i | 0 <= i < |skipped|
      ensures InRun(c, log', since, turns[i])
    {
      InRunLater(c, log, log', since, turns[i]);
    }
  }

  /** Entries of the batch that had their turn and were not skipped are gone or due later than the
      drain began; the others, and all other entries, are as they were. */
  ghost predicate Drained(queue: map<Key, int>, before: map<Key, int>, batch: seq<Due>, skipped: seq<bool>, since: int) {
    && |skipped| <= |batch|
    && (forall k :: k in before && (forall i :: 0 <= i < |batch| ==> batch[i].key != k) ==> k in queue && queue[k] == before[k])
    && (forall i :: |skipped| <= i < |batch| && batch[i].key in before ==> batch[i].key in queue && queue[batch[i].key] == before[batch[i].key])
    && (forall i :: 0 <= i < |skipped| && !skipped[i] && batch[i].key in queue ==> queue[batch[i].key] > since)
  }

  lemma DrainedMore(q: map<Key, int>, q': map<Key, int>, before: map<Key, int>, batch: seq<Due>, skipped: seq<bool>, skip: bool, since: int)
    requires Drained(q, before, batch, skipped, since) && |skipped| < |batch|
    requires forall i, j :: 0 <= i < j < |batch| ==> batch[i].key != batch[j].key
    requires var k := batch[|skipped|].key;
             && (!skip && k in q' ==> q'[k] > since)
             && (forall j :: j != k && j in q ==> j in q' && q'[j] == q[j])
             && (forall j :: j != k && j in q' && j !in q ==> q'[j] > since)
    ensures Drained(q', before, batch, skipped + [skip], since)
  {
  }
}
