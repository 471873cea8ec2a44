/** The operations of the guest resource store, performed statement by statement.  `log` records
    every transaction and upstream effect; `Valid` says the fields are what the log leads to. */
module GuestResourceStore {
  import opened GuestResources
  import opened Options
  import Backoff

  datatype Error =
    | TargetChanged | ResourceRevoked | PublishFailed | NotConfirmed | AlreadyBound | NotReady
    | BindingMismatch | AllocationPending | DeleteFailed

  datatype Result<T> = Ok(value: T) | Err(error: Error)

  datatype Isolation = PerGuest | PerPage

  /** The publisher's answer: an exception, with the resource created or not, or a reply that
      does or does not confirm identity, target and readiness. */
  datatype PublishReply = Raised(applied: bool) | Replied(confirms: bool)

  /** The answers to the delete calls of one revocation.  `native` tells whether the publisher
      can retire resources itself; `hasCleanup` whether it has a cleanup operation at all.  A
      failure may say when to try again. */
  datatype DeleteReplies = DeleteReplies(
    native: bool, hasCleanup: bool, nativeReply: Reply, managementReply: Reply,
    cleanupReply: Reply, alreadyMissing: bool,
    asked: bool, retryAfter: nat)

  /** What one allocation's recovery is answered with: its publication, whether the resource serves,
      its deletion, and, for a failure, whether the rate was exceeded and when to try again. */
  datatype Answers = Answers(publish: PublishReply, serving: bool, replies: DeleteReplies, rateLimited: bool, retryAfter: nat)

  /** One turn of the orphan scan: whether the allocation was closed, and the rows at that time. */
  datatype OrphanTurned = OrphanTurned(done: bool, rows: map<Key, Row>)

  /** The row is closed, or it waits out its delay unless it is being retired already. */
  ghost predicate Tried(row: Row, done: bool, now: int, attempts: nat, o: Answers) {
    if done then row.phase.Revoked?
    else row.phase.Creating? || row.phase.Ready? ==> row.recoveryDue == now + Backoff.RecoveryDelay(o.retryAfter, o.rateLimited, attempts)
  }

  predicate Healthy(d: DeleteReplies) {
    d.nativeReply.Returned? && d.managementReply.Returned? && d.cleanupReply.Returned?
  }

  /** The deletion of a resource counts as done; `oldIdentity` is that of an identity that was reset. */
  predicate Confirmed(oldIdentity: bool, d: DeleteReplies) {
    || (d.native && !oldIdentity && d.nativeReply.Returned?)
    || (d.managementReply.Returned? && (oldIdentity || (!d.native && !d.hasCleanup) || d.cleanupReply.Returned?))
  }

  /** A healthy upstream confirms every deletion. */
  lemma HealthyConfirms(oldIdentity: bool, d: DeleteReplies)
    requires Healthy(d)
    ensures Confirmed(oldIdentity, d)
  {
  }

  /** The two maps differ at most at `key`. */
  ghost predicate SameBut<V>(m: map<Key, V>, n: map<Key, V>, key: Key) {
    forall k :: k != key ==> (k in m <==> k in n) && (k in m && k in n ==> m[k] == n[k])
  }

  /** No other row has the resource. */
  ghost predicate Free(rows: map<Key, Row>, key: Key, crid: Crid) {
    forall k :: k in rows && k != key ==> rows[k].crid != Some(crid)
  }

  lemma FreeKept(rows: map<Key, Row>, before: map<Key, Row>, key: Key, crid: Crid)
    requires SameBut(rows, before, key)
    ensures Free(rows, key, crid) <==> Free(before, key, crid)
  {
  }

  /** After its turn a retirement is either gone, with its row closed, or due after its delay. */
  ghost predicate Settled(k: Key, retirements: map<Key, Retirement>, rows: map<Key, Row>,
                          before: map<Key, Retirement>, now: int, d: DeleteReplies) {
    if k in retirements then
      && k in before && !Confirmed(before[k].managementOnly, d) && retirements[k].attempts == before[k].attempts + 1
      && retirements[k].due == now + Backoff.RetirementDelay(d.asked, d.retryAfter, before[k].attempts)
    else k in rows && rows[k].phase.Revoked? && k in before && Confirmed(before[k].managementOnly, d)
  }

  lemma SettledStays(k: Key, retirements: map<Key, Retirement>, rows: map<Key, Row>, earlier: map<Key, Retirement>, earlierRows: map<Key, Row>,
                     turn: Key, before: map<Key, Retirement>, now: int, d: DeleteReplies)
    requires Settled(k, earlier, earlierRows, before, now, d) && k != turn
    requires SameBut(retirements, earlier, turn) && SameBut(rows, earlierRows, turn)
    ensures Settled(k, retirements, rows, before, now, d)
  {
  }

  /** The retirement on record: the one that was there, or a new one that is due at once, for the
      invitation if there is one. */
  function Marked(retirements: map<Key, Retirement>, key: Key, crid: Crid, qurl: string, now: int): Retirement {
    var r := if key in retirements then retirements[key] else Retirement(crid, now, 0, "", false);
    if qurl == "" then r else r.(qurl := qurl)
  }

  predicate Unclaimed(rows: map<Key, Row>, crid: Crid) {
    forall k :: k in rows ==> rows[k].crid != Some(crid)
  }

  /** Why a publication did not lead to a binding. */
  predicate AllocationError(e: Error, reply: PublishReply) {
    match e
    case PublishFailed => reply.Raised?
    case NotConfirmed => reply == Replied(false)
    case AlreadyBound => reply == Replied(true)
    case _ => false
  }

  class Store {
    var rows: map<Key, Row>
    var retirements: map<Key, Retirement>
    var generations: map<string, nat>
    var gate: Option<int>
    const installation: string

    /** The CRID the service gives the resource of a connector id, whenever it is published. */
    const service: Connector -> Crid
    ghost var published: map<Connector, Crid>
    ghost var confirmed: set<Crid>
    ghost var gone: set<Crid>
    ghost var abandoned: set<Connector>
    ghost var log: seq<Step>

    ghost function View(): State
      reads this
    {
      State(rows, retirements, generations, published, confirmed, gone, abandoned)
    }

    ghost predicate Valid()
      reads this
    {
      && Recorded(log, View())
      && (forall c :: c in published ==> published[c] == service(c))
    }

    constructor (installation: string, service: Connector -> Crid)
      ensures Valid() && View() == EMPTY
      ensures this.installation == installation && this.service == service
    {
      this.installation, this.service := installation, service;
      rows, retirements, generations, gate := map[], map[], map[], None;
      published, confirmed, gone, abandoned, log := map[], {}, {}, {}, [];
    }

    /** Makes a step durable: everything but `log` has already been changed. */
    ghost method Record(step: Step, before: State)
      requires Recorded(log, before) && Allowed(before, step)
      requires View() == Apply(before, step)
      requires forall c :: c in published ==> published[c] == service(c)
      modifies this`log
      ensures Valid() && log == old(log) + [step]
    {
      RecordedAppend(log, before, step);
      log := log + [step];
    }

    lemma Sound()
      requires Valid()
      ensures Inv(View())
    {
      EmptyOk();
      assert Run(EMPTY, log);
      RunKeepsInv(EMPTY, log);
    }

    // -------------------------------------------------------------- transactions

    method RotatePool(page: string)
      requires Valid() && HasRow(View(), Key(page, Pool), Revoked)
      modifies this`rows, this`generations, this`log
      ensures Valid() && log == old(log) + [Step.RotatePool(page)]
      ensures View() == RenamePool(old(View()), page) && Key(page, Pool) !in rows
    {
      ghost var before := View();
      var g := if page in generations then generations[page] else 0;
      var from, to := Key(page, Pool), Key(page, RetiredPool(g));
      Sound();
      assert from !in retirements;
      rows := (rows - {from})[to := rows[from]];
      generations := generations[page := g + 1];
      Record(Step.RotatePool(page), before);
    }

    method InsertCreating(key: Key, target: string, now: int)
      requires Valid() && key !in rows && !key.owner.RetiredPool?
      modifies this`rows, this`log
      ensures Valid() && log == old(log) + [Insert(key, installation, target, now)]
      ensures rows == old(rows)[key := Row(ConnectorFor(old(View()), installation, key), target, None, Creating, now, 0, 0)]
    {
      ghost var before := View();
      var g := if key.owner.Pool? && key.page in generations then generations[key.page] else 0;
      rows := rows[key := Row(Connector(installation, key.page, key.owner, g), target, None, Creating, now, 0, 0)];
      Record(Insert(key, installation, target, now), before);
    }

    ghost method Published(key: Key)
      requires Valid() && HasRow(View(), key, Creating)
      modifies this`published, this`log
      ensures Valid() && log == old(log) + [Publish(key, service(rows[key].connector))]
      ensures published == old(published)[rows[key].connector := service(rows[key].connector)]
    {
      ghost var before := View();
      published := published[rows[key].connector := service(rows[key].connector)];
      Record(Publish(key, service(rows[key].connector)), before);
    }

    /** The UNIQUE constraint on `crid` refuses a resource that another row already holds. */
    method CommitBinding(key: Key, crid: Crid) returns (bound: bool)
      requires Valid() && HasRow(View(), key, Creating)
      requires rows[key].connector in published && published[rows[key].connector] == crid
      modifies this`rows, this`log
      ensures Valid()
      ensures bound <==> Unclaimed(old(rows), crid)
      ensures bound ==> log == old(log) + [CommitReady(key)]
      ensures bound ==> rows == old(rows)[key := old(rows)[key].(crid := Some(crid), phase := Ready)]
      ensures !bound ==> log == old(log) && rows == old(rows)
    {
      bound := forall k :: k in rows ==> rows[k].crid != Some(crid);
      if bound {
        ghost var before := View();
        rows := rows[key := rows[key].(crid := Some(crid), phase := Ready)];
        Record(CommitReady(key), before);
      }
    }

    method BeginRetirement(key: Key, crid: Crid, qurl: string, now: int)
      requires Valid() && (HasRow(View(), key, Ready) || HasRow(View(), key, Retiring)) && rows[key].crid == Some(crid)
      modifies this`rows, this`retirements, this`log
      ensures Valid() && log == old(log) + [MarkRetiring(key, qurl, now)]
      ensures rows == old(rows)[key := old(rows)[key].(phase := Retiring)]
      ensures key in retirements && retirements == old(retirements)[key := retirements[key]]
      ensures var r := if key in old(retirements) then old(retirements)[key] else Retirement(crid, now, 0, "", false);
              retirements[key] == r.(qurl := if qurl == "" then r.qurl else qurl)
    {
      ghost var before := View();
      rows := rows[key := rows[key].(phase := Retiring)];
      var r := if key in retirements then retirements[key] else Retirement(crid, now, 0, "", false);
      if qurl != "" {
        r := r.(qurl := qurl);
      }
      retirements := retirements[key := r];
      Record(MarkRetiring(key, qurl, now), before);
    }

    /** One delete call for a retiring row's CRID, with whatever effect it had upstream. */
    method CallDelete(key: Key, reply: Reply) returns (returned: bool)
      requires Valid() && HasRow(View(), key, Retiring) && rows[key].crid.Some?
      modifies this`confirmed, this`gone, this`log
      ensures Valid() && returned == reply.Returned? && log == old(log) + [Delete(key, reply)]
      ensures confirmed == if returned then old(confirmed) + {rows[key].crid.value} else old(confirmed)
    {
      ghost var before, crid := View(), rows[key].crid.value;
      confirmed := if reply.Returned? then confirmed + {crid} else confirmed;
      gone := if reply.FailedNotApplied? then gone else gone + {crid};
      Record(Delete(key, reply), before);
      returned := reply.Returned?;
    }

    method CompleteRetirement(key: Key)
      requires Valid() && HasRow(View(), key, Retiring) && rows[key].crid.Some? && rows[key].crid.value in confirmed
      modifies this`rows, this`retirements, this`log
      ensures Valid() && log == old(log) + [FinishRevoke(key)]
      ensures rows == old(rows)[key := old(rows)[key].(phase := Revoked)] && retirements == old(retirements) - {key}
    {
      ghost var before := View();
      rows := rows[key := rows[key].(phase := Revoked)];
      retirements := retirements - {key};
      Record(FinishRevoke(key), before);
    }

    method Postpone(key: Key, due: int)
      requires Valid() && key in retirements
      modifies this`retirements, this`log
      ensures Valid() && log == old(log) + [Reschedule(key, due)]
      ensures var r := old(retirements)[key];
              retirements == old(retirements)[key := r.(due := due, attempts := r.attempts + 1)]
    {
      ghost var before := View();
      var r := retirements[key];
      retirements := retirements[key := r.(due := due, attempts := r.attempts + 1)];
      Record(Reschedule(key, due), before);
    }

    method PostponeRecovery(key: Key, due: int)
      requires Valid() && (HasRow(View(), key, Creating) || HasRow(View(), key, Ready))
      modifies this`rows, this`log
      ensures Valid() && log == old(log) + [BackOff(key, due)]
      ensures var row := old(rows)[key];
              rows == old(rows)[key := row.(recoveryDue := due, recoveryAttempts := row.recoveryAttempts + 1)]
    {
      ghost var before := View();
      var row := rows[key];
      rows := rows[key := row.(recoveryDue := due, recoveryAttempts := row.recoveryAttempts + 1)];
      Record(BackOff(key, due), before);
    }

    // -------------------------------------------------------------- operations

    /** The row of `owner` on `page`, published and ready; a closed page pool is first moved
        aside under its generation. */
    method Ensure(page: string, id: string, isolation: Isolation, target: string, now: int,
                  reply: PublishReply, serving: bool) returns (r: Result<Crid>)
      requires Valid()
      modifies this
      ensures Valid() && old(log) <= log
      ensures var key := Key(page, if isolation.PerGuest? then Guest(id) else Pool);
              && key in rows
              && (r.Ok? ==> HasRow(View(), key, Ready) && rows[key].crid == Some(r.value) && rows[key].target == target)
              && (isolation.PerGuest? ==> SameBut(rows, old(rows), key))
              && (old(HasRow(View(), key, Retiring)) || (isolation.PerGuest? && old(HasRow(View(), key, Revoked))) ==>
                    r.Err? && View() == old(View()))
              && (old(HasRow(View(), key, Ready)) ==>
                    View() == old(View()) && (r.Ok? <==> rows[key].target == target && serving))
              && (old(HasRow(View(), key, Creating)) || key !in old(rows) ==>
                    HasRow(View(), key, Creating) || HasRow(View(), key, Ready))
      ensures var key := Key(page, if isolation.PerGuest? then Guest(id) else Pool);
              && (r == Err(TargetChanged) <==> rows[key].target != target)
              && (r == Err(ResourceRevoked) <==> rows[key].target == target && (HasRow(View(), key, Retiring) || HasRow(View(), key, Revoked)))
              && (r == Err(NotReady) ==> !serving && HasRow(View(), key, Ready))
              && (r.Ok? ==> serving)
              && (r.Err? && HasRow(View(), key, Creating) && rows[key].target == target ==> AllocationError(r.error, reply))
      ensures var key := Key(page, if isolation.PerGuest? then Guest(id) else Pool);
              rows[key].phase.Creating? || (rows[key].phase.Ready? && !old(HasRow(View(), key, Ready))) ==>
                (r.Ok? <==> rows[key].target == target && serving && reply == Replied(true) && Free(rows, key, service(rows[key].connector)))
      ensures var key := Key(page, if isolation.PerGuest? then Guest(id) else Pool);
              if key in old(rows) && (isolation.PerGuest? || !old(HasRow(View(), key, Revoked)))
              then rows[key].connector == old(rows)[key].connector && rows[key].target == old(rows)[key].target
              else rows[key].target == target
      ensures retirements == old(retirements) && gate == old(gate)
    {
      var key := Key(page, if isolation.PerGuest? then Guest(id) else Pool);
      if isolation.PerPage? && key in rows && rows[key].phase.Revoked? {
        Sound();
        RotatePool(page);
      }
      if key !in rows {
        InsertCreating(key, target, now);
      }
      r := Bring(key, target, reply, serving);
    }

    /** The same, once there is a row. */
    method Bring(key: Key, target: string, reply: PublishReply, serving: bool) returns (r: Result<Crid>)
      requires Valid() && key in rows
      modifies this`rows, this`published, this`log
      ensures Valid() && old(log) <= log && key in rows && SameBut(rows, old(rows), key) && rows[key].target == old(rows)[key].target
      ensures r.Ok? ==> HasRow(View(), key, Ready) && rows[key].crid == Some(r.value) && rows[key].target == target && serving
      ensures !old(HasRow(View(), key, Creating)) || rows[key].target != target ==> View() == old(View())
      ensures old(HasRow(View(), key, Ready)) ==> (r.Ok? <==> rows[key].target == target && serving)
      ensures old(HasRow(View(), key, Creating)) ==> HasRow(View(), key, Creating) || HasRow(View(), key, Ready)
      ensures r == Err(TargetChanged) <==> rows[key].target != target
      ensures r == Err(ResourceRevoked) <==> rows[key].target == target && (HasRow(View(), key, Retiring) || HasRow(View(), key, Revoked))
      ensures r == Err(NotReady) ==> !serving && HasRow(View(), key, Ready)
      ensures r.Err? && HasRow(View(), key, Creating) && rows[key].target == target ==> AllocationError(r.error, reply)
      ensures rows[key].connector == old(rows)[key].connector
      ensures old(HasRow(View(), key, Creating)) && rows[key].target == target ==>
                var bound := reply == Replied(true) && Free(rows, key, service(rows[key].connector));
                HasRow(View(), key, if bound then Ready else Creating) && (r.Ok? <==> bound && serving)
    {
      var row := rows[key];
      if row.target != target {
        return Err(TargetChanged);
      }
      if row.phase.Retiring? || row.phase.Revoked? {
        return Err(ResourceRevoked);
      }
      if row.phase.Creating? {
        Sound();
        assert RowOk(View(), key);
        r := Allocate(key, reply);
        if r.Err? {
          return;
        }
      } else {
        Sound();
        assert RowOk(View(), key);
        r := Ok(row.crid.value);
      }
      if !serving {
        return Err(NotReady);
      }
    }

    /** Publishes the stable connector id of a row still being created and binds the result. */
    method Allocate(key: Key, reply: PublishReply) returns (r: Result<Crid>)
      requires Valid() && HasRow(View(), key, Creating)
      modifies this`rows, this`published, this`log
      ensures Valid() && old(log) <= log
      ensures SameBut(rows, old(rows), key) && key in rows && rows[key].target == old(rows)[key].target
      ensures if r.Ok? then HasRow(View(), key, Ready) && rows[key].crid == Some(r.value)
              else HasRow(View(), key, Creating)
      ensures r.Ok? <==> reply == Replied(true) && Unclaimed(old(rows), service(old(rows)[key].connector))
      ensures r.Err? ==> AllocationError(r.error, reply)
      ensures if reply == Raised(false) then published == old(published) else rows[key].connector in published
      ensures rows[key].connector == old(rows)[key].connector && (r.Ok? ==> r.value == service(rows[key].connector))
    {
      if reply.Raised? {
        if reply.applied {
          Published(key);
        }
        return Err(PublishFailed);
      }
      Published(key);
      var crid := service(rows[key].connector);
      if !reply.confirms {
        return Err(NotConfirmed);
      }
      var bound := CommitBinding(key, crid);
      r := if bound then Ok(crid) else Err(AlreadyBound);
    }

    /** Retires the resource of a binding.  The row is marked and queued first; it is closed only
        when the branch that applies has had its delete, and its cleanup, confirmed. */
    method Revoke(key: Key, expected: Crid, qurl: string, now: int, replies: DeleteReplies) returns (r: Result<bool>)
      requires Valid()
      modifies this`rows, this`retirements, this`confirmed, this`gone, this`log
      ensures Valid() && old(log) <= log
      ensures SameBut(rows, old(rows), key) && SameBut(retirements, old(retirements), key)
      ensures r == Err(BindingMismatch) <==> key !in old(rows) || old(rows)[key].crid != Some(expected)
      ensures r == Err(BindingMismatch) || old(HasRow(View(), key, Revoked)) ==> View() == old(View())
      ensures r.Ok? ==> HasRow(View(), key, Revoked) && expected in confirmed && key !in retirements
      ensures r.Err? && r != Err(BindingMismatch) ==> r == Err(DeleteFailed) && HasRow(View(), key, Retiring) && key in retirements
      ensures key in retirements && key in old(retirements) ==>
                retirements[key].due == old(retirements)[key].due && retirements[key].attempts == old(retirements)[key].attempts
      ensures r != Err(BindingMismatch) && !old(HasRow(View(), key, Revoked)) ==>
                (r.Ok? <==> Confirmed(key in old(retirements) && old(retirements)[key].managementOnly, replies))
      ensures r == Err(DeleteFailed) ==> retirements[key] == Marked(old(retirements), key, expected, qurl, now)
      ensures key in rows ==> rows[key].connector == old(rows)[key].connector
    {
      if key !in rows || rows[key].crid != Some(expected) {
        return Err(BindingMismatch);
      }
      Sound();
      assert RowOk(View(), key);
      if rows[key].phase.Revoked? {
        return Ok(true);
      }
      r := Retire(key, expected, qurl, now, replies);
    }

    /** The same for a row that is bound to that resource and not closed. */
    method Retire(key: Key, crid: Crid, qurl: string, now: int, replies: DeleteReplies) returns (r: Result<bool>)
      requires Valid() && (HasRow(View(), key, Ready) || HasRow(View(), key, Retiring)) && rows[key].crid == Some(crid)
      modifies this`rows, this`retirements, this`confirmed, this`gone, this`log
      ensures Valid() && old(log) <= log
      ensures SameBut(rows, old(rows), key) && SameBut(retirements, old(retirements), key)
      ensures r.Ok? ==> HasRow(View(), key, Revoked) && crid in confirmed && key !in retirements
      ensures r.Err? ==> r == Err(DeleteFailed) && HasRow(View(), key, Retiring) && key in retirements
      ensures r.Ok? <==> Confirmed(key in old(retirements) && old(retirements)[key].managementOnly, replies)
      ensures r.Err? ==> retirements[key] == Marked(old(retirements), key, crid, qurl, now)
      ensures rows[key].connector == old(rows)[key].connector
      ensures key in retirements && key in old(retirements) ==>
                retirements[key].due == old(retirements)[key].due && retirements[key].attempts == old(retirements)[key].attempts
    {
      BeginRetirement(key, crid, qurl, now);
      var done := DeleteUpstream(key, retirements[key].managementOnly, replies);
      if !done {
        return Err(DeleteFailed);
      }
      CompleteRetirement(key);
      r := Ok(replies.alreadyMissing);
    }

    /** The three ways a resource is deleted: by management alone for an identity that was reset,
        by the publisher with management and cleanup as the fallback, or by management followed
        by the publisher's cleanup. */
    method DeleteUpstream(key: Key, oldIdentity: bool, replies: DeleteReplies) returns (done: bool)
      requires Valid() && HasRow(View(), key, Retiring) && rows[key].crid.Some?
      modifies this`confirmed, this`gone, this`log
      ensures Valid() && old(log) <= log
      ensures done ==> rows[key].crid.value in confirmed
      ensures done <==>
                if oldIdentity then replies.managementReply.Returned?
                else if replies.native then
                  replies.nativeReply.Returned? || (replies.managementReply.Returned? && replies.cleanupReply.Returned?)
                else replies.managementReply.Returned? && (replies.hasCleanup ==> replies.cleanupReply.Returned?)
    {
      if !oldIdentity && replies.native {
        done := CallDelete(key, replies.nativeReply);
        if done {
          return;
        }
      }
      done := CallDelete(key, replies.managementReply);
      if done && !oldIdentity && (replies.native || replies.hasCleanup) {
        done := CallDelete(key, replies.cleanupReply);
      }
    }

    /** Revocation by native ownership alone, for a lost invitation file. */
    method RevokeOwned(key: Key, now: int, replies: DeleteReplies) returns (r: Result<bool>)
      requires Valid()
      modifies this
      ensures Valid() && old(log) <= log
      ensures SameBut(rows, old(rows), key)
      ensures key !in old(rows) ==> r == Ok(true) && View() == old(View())
      ensures r == Err(AllocationPending) <==> key in old(rows) && old(rows)[key].crid.None?
      ensures r.Ok? && key in old(rows) ==> HasRow(View(), key, Revoked)
      ensures key in old(rows) && old(rows)[key].crid.Some? ==>
                (r.Ok? <==> old(HasRow(View(), key, Revoked))
                            || Confirmed(key in old(retirements) && old(retirements)[key].managementOnly, replies))
    {
      if key !in rows {
        return Ok(true);
      }
      if rows[key].crid.None? {
        return Err(AllocationPending);
      }
      r := Revoke(key, rows[key].crid.value, "", now, replies);
    }

    /** At most `limit` of the retirements that are due, in no particular order. */
    method SelectDue(now: int, limit: nat) returns (batch: seq<Key>)
      ensures forall k :: k in batch ==> k in retirements && retirements[k].due <= now
      ensures forall i, j :: 0 <= i < j < |batch| ==> batch[i] != batch[j]
      ensures |batch| <= limit
      ensures |batch| < limit ==> forall k :: k in retirements && retirements[k].due <= now ==> k in batch
    {
      batch := [];
      var left := set k | k in retirements && retirements[k].due <= now;
      while left != {} && |batch| < limit
        invariant forall k :: k in retirements && retirements[k].due <= now <==> k in left || k in batch
        invariant forall k :: k in batch ==> k !in left && k in retirements
        invariant forall i, j :: 0 <= i < j < |batch| ==> batch[i] != batch[j]
        invariant |batch| <= limit
        decreases |left|
      {
        var k :| k in left;
        batch := batch + [k];
        left := left - {k};
      }
    }

    /** Retries due retirements.  Each one is settled, nothing else changes, and a healthy
        upstream clears the whole batch. */
    method DrainRetirements(now: int, replies: Key -> DeleteReplies) returns (batch: seq<Key>)
      requires Valid()
      modifies this`rows, this`retirements, this`confirmed, this`gone, this`log
      ensures Valid() && old(log) <= log
      ensures |batch| <= 50 && forall k :: k in batch ==> k in old(retirements) && old(retirements)[k].due <= now
      ensures |batch| < 50 ==> forall k :: k in old(retirements) && old(retirements)[k].due <= now ==> k in batch
      ensures forall k :: k !in batch ==> (k in retirements <==> k in old(retirements))
      ensures forall k :: k !in batch && k in retirements ==> retirements[k] == old(retirements)[k]
      ensures forall k :: k in batch ==> Settled(k, retirements, rows, old(retirements), now, replies(k))
    {
      batch := SelectDue(now, 50);
      ghost var before := retirements;
      var i := 0;
      while i < |batch|
        invariant 0 <= i <= |batch| && Valid() && old(log) <= log
        invariant forall k :: k !in batch ==> (k in retirements <==> k in before)
        invariant forall k :: k !in batch && k in retirements ==> retirements[k] == before[k]
        invariant forall j :: i <= j < |batch| ==> batch[j] in retirements && retirements[batch[j]] == before[batch[j]]
        invariant forall j :: 0 <= j < i ==> Settled(batch[j], retirements, rows, before, now, replies(batch[j]))
      {
        label Turn:
        RetireOne(batch[i], now, replies(batch[i]));
        forall j | 0 <= j < i
          ensures Settled(batch[j], retirements, rows, before, now, replies(batch[j]))
        {
          SettledStays(batch[j], retirements, rows, old@Turn(retirements), old@Turn(rows), batch[i], before, now, replies(batch[j]));
        }
        i := i + 1;
      }
    }

    /** One turn of the drain. */
    method RetireOne(k: Key, now: int, replies: DeleteReplies)
      requires Valid() && k in retirements
      modifies this`rows, this`retirements, this`confirmed, this`gone, this`log
      ensures Valid() && old(log) <= log
      ensures SameBut(rows, old(rows), k) && SameBut(retirements, old(retirements), k)
      ensures Settled(k, retirements, rows, old(retirements), now, replies)
    {
      Sound();
      assert HasRow(View(), k, Retiring);
      var r := Revoke(k, retirements[k].crid, "", now, replies);
      if r.Err? {
        Postpone(k, now + Backoff.RetirementDelay(replies.asked, replies.retryAfter, retirements[k].attempts));
      }
    }

    // -------------------------------------------------------------- orphan recovery

    /** What the orphan scan looks at: guest allocations past the grace period and not backing off. */
    predicate ScanDue(row: Row, owner: Owner, now: int, grace: nat) {
      && !owner.Pool? && (row.phase.Creating? || row.phase.Ready?)
      && row.created <= now - grace && row.recoveryDue <= now
    }

    /** What the scan leaves alone: page pools, allocations younger than the grace period, those whose
        recovery was put off, and those that are being retired or are closed. */
    ghost predicate Exempt(row: Row, owner: Owner, now: int, grace: nat) {
      owner.Pool? || row.created + grace > now || row.recoveryDue > now || row.phase.Retiring? || row.phase.Revoked?
    }

    method SelectOrphans(now: int, grace: nat, limit: nat) returns (batch: seq<Key>)
      ensures forall k :: k in batch ==> k in rows && ScanDue(rows[k], k.owner, now, grace)
      ensures forall i, j :: 0 <= i < j < |batch| ==> batch[i] != batch[j]
      ensures |batch| <= limit
      ensures |batch| < limit ==> forall k :: k in rows && ScanDue(rows[k], k.owner, now, grace) ==> k in batch
    {
      batch := [];
      var left := set k | k in rows && ScanDue(rows[k], k.owner, now, grace);
      while left != {} && |batch| < limit
        invariant forall k :: k in left || k in batch <==> k in rows && ScanDue(rows[k], k.owner, now, grace)
        invariant forall k :: k in batch ==> k !in left
        invariant forall i, j :: 0 <= i < j < |batch| ==> batch[i] != batch[j]
        invariant |batch| <= limit
        decreases |left|
      {
        var k :| k in left;
        batch := batch + [k];
        left := left - {k};
      }
    }

    /** Recovers one allocation that has no invitation: a row still being created is published
        again under its stable id to learn its CRID, and then retired. */
    method RetireOrphan(k: Key, now: int, reply: PublishReply, serving: bool, replies: DeleteReplies) returns (done: bool)
      requires Valid() && (HasRow(View(), k, Creating) || HasRow(View(), k, Ready))
      modifies this
      ensures Valid() && old(log) <= log
      ensures SameBut(rows, old(rows), k) && k in rows && gate == old(gate)
      ensures done ==> HasRow(View(), k, Revoked)
      ensures done <==> Recoverable(old(rows), k, reply, serving, replies)
    {
      Sound();
      assert RowOk(View(), k);
      var crid: Crid;
      if rows[k].phase.Creating? {
        if !k.owner.Guest? {
          return false;
        }
        var e := Ensure(k.page, k.owner.id, PerGuest, rows[k].target, now, reply, serving);
        FreeKept(rows, old(rows), k, service(rows[k].connector));
        if e.Err? {
          return false;
        }
        crid := e.value;
      } else {
        crid := rows[k].crid.value;
      }
      Sound();
      var r := Revoke(k, crid, "", now, replies);
      done := r.Ok?;
    }

    /** A ready row's deletion is confirmed; or a guest's row still being created is published, gets
        a resource of its own, and its deletion is confirmed. */
    ghost predicate Recoverable(rows: map<Key, Row>, k: Key, reply: PublishReply, serving: bool, replies: DeleteReplies) {
      && k in rows && Confirmed(false, replies)
      && (rows[k].phase.Creating? ==> k.owner.Guest? && reply == Replied(true) && serving && Free(rows, k, service(rows[k].connector)))
    }

    /** A failed recovery: the row, if still unretired, backs off; a rate rejection closes the
        gate for the whole scan. */
    method DelayRecovery(k: Key, due: int, rateLimited: bool)
      requires Valid() && k in rows
      modifies this`rows, this`gate, this`log
      ensures Valid() && old(log) <= log
      ensures SameBut(rows, old(rows), k) && k in rows
      ensures gate == if rateLimited then Some(due) else old(gate)
      ensures (HasRow(View(), k, Creating) || HasRow(View(), k, Ready)) ==> rows[k].recoveryDue == due
      ensures rows[k].phase == old(rows)[k].phase
    {
      if rows[k].phase.Creating? || rows[k].phase.Ready? {
        PostponeRecovery(k, due);
      }
      if rateLimited {
        gate := Some(due);
      }
    }

    /** One turn of the scan: the row recovered, or put off. */
    method OrphanTurn(k: Key, now: int, o: Answers) returns (done: bool)
      requires Valid() && (HasRow(View(), k, Creating) || HasRow(View(), k, Ready))
      modifies this
      ensures Valid() && old(log) <= log
      ensures SameBut(rows, old(rows), k) && k in rows
      ensures done <==> Recoverable(old(rows), k, o.publish, o.serving, o.replies)
      ensures Tried(rows[k], done, now, old(rows)[k].recoveryAttempts, o)
      ensures gate == if !done && o.rateLimited then Some(now + Backoff.RecoveryDelay(o.retryAfter, true, old(rows)[k].recoveryAttempts))
                      else old(gate)
    {
      var attempts := rows[k].recoveryAttempts;
      done := RetireOrphan(k, now, o.publish, o.serving, o.replies);
      if !done {
        DelayRecovery(k, now + Backoff.RecoveryDelay(o.retryAfter, o.rateLimited, attempts), o.rateLimited);
      }
    }

    /** The orphan scan.  It never touches a page pool, an allocation whose invitation the broker
        still maps, one younger than the grace period or one already retiring, and it does nothing
        at all behind a closed gate.  Every other due allocation of its batch has its turn, until a
        turn is refused for the rate: it is closed exactly if it could be recovered in the rows of
        that turn, and put off otherwise. */
    method RetireOrphans(now: int, grace: nat, mapped: Key -> bool, answers: Key -> Answers)
      returns (ghost batch: seq<Key>, ghost turns: seq<OrphanTurned>)
      requires Valid()
      modifies this
      ensures Valid() && old(log) <= log
      ensures old(gate).Some? && old(gate).value > now ==>
                View() == old(View()) && log == old(log) && gate == old(gate) && batch == []
      ensures forall k :: k in rows <==> k in old(rows)
      ensures forall k :: k in old(rows) && (mapped(k) || Exempt(old(rows)[k], k.owner, now, grace)) ==> rows[k] == old(rows)[k]
      ensures !(old(gate).Some? && old(gate).value > now) && |batch| < 50 ==>
                forall k :: k in old(rows) && !Exempt(old(rows)[k], k.owner, now, grace) ==> k in batch
      ensures Scanning(batch, turns, rows, old(rows), mapped, now, answers)
      ensures |turns| < |batch| ==> Stopped(batch, turns, gate, old(rows), mapped, now, answers)
      ensures gate == old(gate) || Stopped(batch, turns, gate, old(rows), mapped, now, answers)
    {
      batch, turns := [], [];
      if gate.Some? && gate.value > now {
        return;
      }
      var due := SelectOrphans(now, grace, 50);
      batch := due;
      ghost var stopped;
      turns, stopped := Scan(due, now, mapped, answers);
    }

    method Scan(due: seq<Key>, now: int, mapped: Key -> bool, answers: Key -> Answers)
      returns (ghost turns: seq<OrphanTurned>, ghost stopped: bool)
      requires Valid() && forall i, j :: 0 <= i < j < |due| ==> due[i] != due[j]
      requires forall k :: k in due ==> HasRow(View(), k, Creating) || HasRow(View(), k, Ready)
      modifies this
      ensures Valid() && old(log) <= log
      ensures Scanning(due, turns, rows, old(rows), mapped, now, answers)
      ensures |turns| < |due| ==> stopped
      ensures if stopped then Stopped(due, turns, gate, old(rows), mapped, now, answers) else gate == old(gate)
    {
      turns, stopped := [], false;
      var i := 0;
      while i < |due|
        invariant 0 <= i == |turns| <= |due| && Valid() && old(log) <= log && gate == old(gate) && !stopped
        invariant Scanning(due, turns, rows, old(rows), mapped, now, answers)
      {
        var k := due[i];
        ghost var before := rows;
        assert k in due && before[k] == old(rows)[k];
        var done, stop := ScanTurn(k, now, mapped, answers);
        ScanStep(due, turns, rows, before, old(rows), mapped, now, answers, OrphanTurned(done, before));
        if stop {
          StopsHere(due, turns, OrphanTurned(done, before), gate, old(rows), mapped, now, answers);
          return turns + [OrphanTurned(done, before)], true;
        }
        turns := turns + [OrphanTurned(done, before)];
        i := i + 1;
      }
    }

    lemma StopsHere(due: seq<Key>, turns: seq<OrphanTurned>, t: OrphanTurned, gate: Option<int>, before: map<Key, Row>, mapped: Key -> bool,
                    now: int, answers: Key -> Answers)
      requires |turns| < |due|
      requires var k := due[|turns|];
               && !t.done && !mapped(k) && answers(k).rateLimited && k in before
               && gate == Some(now + Backoff.RecoveryDelay(answers(k).retryAfter, true, before[k].recoveryAttempts))
      ensures Stopped(due, turns + [t], gate, before, mapped, now, answers)
    {
    }

    method ScanTurn(k: Key, now: int, mapped: Key -> bool, answers: Key -> Answers) returns (done: bool, stop: bool)
      requires Valid() && (HasRow(View(), k, Creating) || HasRow(View(), k, Ready))
      modifies this
      ensures Valid() && old(log) <= log && SameBut(rows, old(rows), k) && (mapped(k) ==> rows == old(rows))
      ensures TurnedOut(k, OrphanTurned(done, old(rows)), rows, old(rows), mapped, now, answers)
      ensures stop <==> !mapped(k) && !done && answers(k).rateLimited
      ensures gate == if stop then Some(now + Backoff.RecoveryDelay(answers(k).retryAfter, true, old(rows)[k].recoveryAttempts)) else old(gate)
    {
      if mapped(k) {
        return false, false;
      }
      done := OrphanTurn(k, now, answers(k));
      stop := !done && answers(k).rateLimited;
    }

    /** The last turn was refused for the rate, which closed the gate until its row is due again. */
    ghost predicate Stopped(due: seq<Key>, turns: seq<OrphanTurned>, gate: Option<int>, before: map<Key, Row>, mapped: Key -> bool, now: int,
                            answers: Key -> Answers)
      requires |turns| <= |due|
    {
      && turns != []
      && var k := due[|turns| - 1];
      && !turns[|turns| - 1].done && !mapped(k) && answers(k).rateLimited && k in before
      && gate == Some(now + Backoff.RecoveryDelay(answers(k).retryAfter, true, before[k].recoveryAttempts))
    }

    /** The first `|turns|` of the batch have had their turn, and nothing else was touched. */
    ghost predicate Scanning(due: seq<Key>, turns: seq<OrphanTurned>, rows: map<Key, Row>, before: map<Key, Row>, mapped: Key -> bool,
                             now: int, answers: Key -> Answers) {
      && |turns| <= |due| && rows.Keys == before.Keys
      && (forall k :: k in before && (k !in due || mapped(k)) ==> rows[k] == before[k])
      && (forall j :: |turns| <= j < |due| && due[j] in before ==> rows[due[j]] == before[due[j]])
      && (forall j :: 0 <= j < |turns| ==> TurnedOut(due[j], turns[j], rows, before, mapped, now, answers))
    }

    lemma ScanStep(due: seq<Key>, turns: seq<OrphanTurned>, rows': map<Key, Row>, rows: map<Key, Row>, before: map<Key, Row>,
                   mapped: Key -> bool, now: int, answers: Key -> Answers, t: OrphanTurned)
      requires |turns| < |due| && Scanning(due, turns, rows, before, mapped, now, answers)
      requires forall i, j :: 0 <= i < j < |due| ==> due[i] != due[j]
      requires var k := due[|turns|];
               && SameBut(rows', rows, k) && k in rows && k in rows' && (mapped(k) ==> rows' == rows)
               && TurnedOut(k, t, rows', before, mapped, now, answers)
      ensures Scanning(due, turns + [t], rows', before, mapped, now, answers)
    {
      var k := due[|turns|];
      forall j | 0 <= j < |turns|
        ensures TurnedOut(due[j], turns[j], rows', before, mapped, now, answers)
      {
        TurnStays(due[j], turns[j], rows', rows, before, k, mapped, now, answers);
      }
      assert forall q :: q in rows' <==> q in rows;
    }

    /** What came of one allocation of the batch: nothing if it is mapped; otherwise it is closed
        exactly if it was recoverable in the rows of its turn, and put off if not. */
    ghost predicate TurnedOut(k: Key, t: OrphanTurned, rows: map<Key, Row>, before: map<Key, Row>, mapped: Key -> bool, now: int,
                              answers: Key -> Answers) {
      && k in rows && k in before && k in t.rows && t.rows[k] == before[k]
      && (mapped(k) ==> !t.done && rows[k] == before[k])
      && (!mapped(k) ==>
            && (t.done <==> Recoverable(t.rows, k, answers(k).publish, answers(k).serving, answers(k).replies))
            && Tried(rows[k], t.done, now, before[k].recoveryAttempts, answers(k)))
    }

    lemma TurnStays(q: Key, t: OrphanTurned, rows': map<Key, Row>, rows: map<Key, Row>, before: map<Key, Row>, k: Key,
                    mapped: Key -> bool, now: int, answers: Key -> Answers)
      requires q != k && SameBut(rows', rows, k) && TurnedOut(q, t, rows, before, mapped, now, answers)
      ensures TurnedOut(q, t, rows', before, mapped, now, answers)
    {
    }

    // -------------------------------------------------------------- reset

    /** Renames a page pool's rows to its generation's retired id and uses the generation up. */
    method MoveAside(page: string)
      modifies this`rows, this`retirements, this`generations
      ensures View() == RenamePool(old(View()), page)
    {
      var g := if page in generations then generations[page] else 0;
      var from, to := Key(page, Pool), Key(page, RetiredPool(g));
      if from in rows {
        rows := (rows - {from})[to := rows[from]];
      }
      if from in retirements {
        retirements := (retirements - {from})[to := retirements[from]];
      }
      generations := generations[page := g + 1];
    }

    method CloseBinding(key: Key, now: int)
      requires key in rows
      modifies this`rows, this`retirements, this`abandoned
      ensures View() == if old(rows)[key].crid.Some? then MarkedRetiring(old(View()), key, "", now)
                        else MarkedAbandoned(old(View()), key)
    {
      var row := rows[key];
      if row.crid.Some? {
        rows := rows[key := row.(phase := Retiring)];
        var r := if key in retirements then retirements[key] else Retirement(row.crid.value, now, 0, "", false);
        retirements := retirements[key := r];
      } else {
        rows := rows[key := row.(phase := Revoked)];
        abandoned := abandoned + {row.connector};
      }
    }

    /** Closes one binding of the identity that is being discarded. */
    method ResetBinding(key: Key, now: int)
      requires Valid() && key in rows && !rows[key].phase.Revoked?
      modifies this`rows, this`retirements, this`generations, this`abandoned, this`log
      ensures Valid() && old(log) <= log
      ensures View() == ResetOne(old(View()), key, now)
    {
      ghost var before := View();
      var to := key;
      if key.owner.Pool? {
        to := Key(key.page, RetiredPool(if key.page in generations then generations[key.page] else 0));
        MoveAside(key.page);
      }
      CloseBinding(to, now);
      Record(ResetRow(key, now), before);
    }

    method ResetNext(key: Key, now: int)
      requires Valid() && key in rows && !rows[key].phase.Revoked?
      modifies this`rows, this`retirements, this`generations, this`abandoned, this`log
      ensures Valid() && old(log) <= log
      ensures forall k :: k != key && k in old(rows) ==> k in rows && rows[k] == old(rows)[k]
      ensures forall k :: k in rows && (k == key || k !in old(rows)) ==> rows[k].phase.Retiring? || rows[k].phase.Revoked?
    {
      ghost var before := View();
      Sound();
      ResetBinding(key, now);
      ResetTouchesOne(before, key, now);
    }

    /** invalidate_for_reset, one transaction: afterwards no binding is usable, and everything
        still to be deleted is left to management authority. */
    method InvalidateForReset(now: int)
      requires Valid()
      modifies this
      ensures Valid() && old(log) <= log
      ensures forall k :: k in rows ==> rows[k].phase.Retiring? || rows[k].phase.Revoked?
      ensures forall k :: k in retirements ==> retirements[k].managementOnly
    {
      var left := set k | k in rows && !rows[k].phase.Revoked?;
      while left != {}
        invariant Valid() && old(log) <= log
        invariant forall k :: k in left ==> k in rows && !rows[k].phase.Revoked?
        invariant forall k :: k in rows && k !in left ==> rows[k].phase.Retiring? || rows[k].phase.Revoked?
        decreases |left|
      {
        var key :| key in left;
        ResetNext(key, now);
        left := left - {key};
      }
      ghost var before := View();
      retirements := map k | k in retirements :: retirements[k].(managementOnly := true);
      Record(ManagementOnly, before);
    }
  }

  lemma ResetTouchesOne(s: State, key: Key, now: int)
    requires Inv(s) && key in s.rows && !s.rows[key].phase.Revoked?
    ensures var t, to := ResetOne(s, key, now), ResetKey(s, key);
            && (forall k :: k != key && k in s.rows ==> k in t.rows && t.rows[k] == s.rows[k])
            && (forall k :: k in t.rows && k != to ==> k != key && k in s.rows)
            && (to in t.rows && (t.rows[to].phase.Retiring? || t.rows[to].phase.Revoked?))
  {
    if key.owner.Pool? {
      RenameRows(s, key.page);
    }
  }
}
