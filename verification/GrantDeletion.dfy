/** A grant's deletion from end to end: the Gateway's files and cleanup queue, and the broker's
    deferred revocations, mappings and rows.  The two share no lock and no transaction, either may
    crash on its own, and requests and replies between them may be lost or come late. */
module GrantDeletion {
  import B = BrokerProtocol
  import G = GuestResources
  import P = PageRevocation
  import opened Options

  /** `answered` is every grant whose deletion the broker has ever reported to have accepted. */
  datatype System = System(disk: P.Disk, world: B.World, answered: set<G.Key>)

  const START := System(P.EMPTY, B.START, {})

  /** A durable write of the Gateway, an act of the broker, or the broker's success for a job of the
      cleanup queue, which the Gateway may get late or never. */
  datatype Move = Gateway(write: P.Write) | Broker(act: B.Act) | Answer(target: P.Target)

  function KeyOf(h: P.Held): G.Key { G.Key(h.page, G.Guest(h.grant.id)) }

  /** For whom a job asks. */
  function Asked(job: P.Job): G.Key { G.Key(job.page, G.Guest(job.id)) }

  /** The broker has answered a mint with this invitation and resource. */
  predicate Offered(w: B.World, k: G.Key, t: P.Target) {
    k in w.offers && w.offers[k].mapping == B.Mapping(t.qurl, t.resource)
  }

  /** The grant is in its page's file or in its page's marker. */
  predicate OnDisk(d: P.Disk, h: P.Held) {
    h.grant in P.Raw(d, h.page) || (h.page in d.markers && h.grant in d.markers[h.page])
  }

  /** What passes between the two: the Gateway commits what the broker answered, queues what its
      files and markers list, and takes a deletion for accepted when the broker said so. */
  ghost predicate Backed(s: System, write: P.Write) {
    match write
    case Create(page, contents) => AllOffered(s, page, contents)
    case Edit(page, contents) => AllOffered(s, page, contents)
    case WriteBack(page, contents) => AllOffered(s, page, contents)
    case Enqueue(page, grant, _) => OnDisk(s.disk, P.Held(page, grant))
    case Accept(t) => t in s.disk.jobs && Asked(s.disk.jobs[t]) in s.answered
    case _ => true
  }

  ghost predicate AllOffered(s: System, page: string, contents: P.Page) {
    forall g :: g in contents.grants && P.Remote(g) && P.New(s.disk, page, g) ==> Offered(s.world, KeyOf(P.Held(page, g)), P.TargetOf(g))
  }

  /** What can happen next; nothing is written to a page while a revocation of it is pending. */
  ghost predicate Can(s: System, c: B.Config, m: Move) {
    match m
    case Gateway(write) => P.Allowed(s.disk, write) && P.Guarded(s.disk, write) && Backed(s, write)
    case Broker(act) => B.Can(s.world, c, act)
    case Answer(t) => t in s.disk.jobs && B.Settled(s.world, Asked(s.disk.jobs[t]))
  }

  ghost function Perform(s: System, c: B.Config, m: Move): System
    requires Can(s, c, m)
  {
    match m
    case Gateway(write) => s.(disk := P.Apply(s.disk, write))
    case Broker(act) => s.(world := B.Perform(s.world, c, act))
    case Answer(t) => s.(answered := s.answered + {Asked(s.disk.jobs[t])})
  }

  // ---------------------------------------------------------------- invariant

  ghost predicate OnceCommitted(d: P.Disk) {
    forall h :: OnDisk(d, h) ==> h in d.committed
  }

  ghost predicate CommittedOffered(s: System) {
    forall h :: h in s.disk.committed && P.Remote(h.grant) ==> Offered(s.world, KeyOf(h), P.TargetOf(h.grant))
  }

  /** A job asks for the grant to which its target was answered. */
  ghost predicate JobsOffered(s: System) {
    forall t :: t in s.disk.jobs ==> Offered(s.world, Asked(s.disk.jobs[t]), t)
  }

  ghost predicate AnsweredSettled(s: System) {
    forall k :: k in s.answered ==> k in s.world.saved && B.Settled(s.world, k)
  }

  ghost predicate Answered(s: System, t: P.Target) {
    exists k :: k in s.answered && Offered(s.world, k, t)
  }

  ghost predicate AcceptedAnswered(s: System) {
    forall t :: t in s.disk.accepted ==> Answered(s, t)
  }

  ghost predicate Inv(s: System) {
    && P.Inv(s.disk) && OnceCommitted(s.disk) && B.AllTracked(s.world)
    && CommittedOffered(s) && JobsOffered(s) && AnsweredSettled(s) && AcceptedAnswered(s)
  }

  /** No two grants were ever answered with the same resource. */
  lemma OffersAreDistinct(w: B.World, k: G.Key, t: P.Target, k': G.Key, t': P.Target)
    requires B.AllTracked(w) && Offered(w, k, t) && Offered(w, k', t') && t.resource == t'.resource
    ensures k == k'
  {
    assert B.Tracked(w, k) && B.Tracked(w, k');
  }

  lemma AnsweredBy(s: System, k: G.Key, t: P.Target)
    requires k in s.answered && Offered(s.world, k, t)
    ensures Answered(s, t)
  {
  }

  lemma DiskKeeps(d: P.Disk, write: P.Write)
    requires P.Inv(d) && OnceCommitted(d) && P.Allowed(d, write) && P.Guarded(d, write)
    ensures P.Inv(P.Apply(d, write)) && OnceCommitted(P.Apply(d, write))
  {
    P.WriteKeeps(d, write);
    forall h | OnDisk(P.Apply(d, write), h)
      ensures h in P.Apply(d, write).committed
    {
      assert OnDisk(d, h) ==> h in d.committed;
    }
  }

  lemma PutBacked(s: System, c: B.Config, write: P.Write)
    requires Inv(s) && Can(s, c, Gateway(write)) && P.Puts(write)
    ensures Inv(Perform(s, c, Gateway(write)))
  {
    DiskKeeps(s.disk, write);
    var s' := Perform(s, c, Gateway(write));
    assert s'.disk == P.Apply(s.disk, write);
    assert s'.disk.jobs == s.disk.jobs && s'.disk.accepted == s.disk.accepted;
    forall t | t in s'.disk.accepted
      ensures Answered(s', t)
    {
      assert Answered(s, t);
    }
  }

  lemma EnqueueBacked(s: System, c: B.Config, page: string, grant: P.Grant, now: int)
    requires Inv(s) && Can(s, c, Gateway(P.Enqueue(page, grant, now)))
    ensures Inv(Perform(s, c, Gateway(P.Enqueue(page, grant, now))))
  {
    DiskKeeps(s.disk, P.Enqueue(page, grant, now));
    var s' := Perform(s, c, Gateway(P.Enqueue(page, grant, now)));
    assert Offered(s.world, KeyOf(P.Held(page, grant)), P.TargetOf(grant));
    forall t | t in s'.disk.accepted
      ensures Answered(s', t)
    {
      assert Answered(s, t);
    }
  }

  lemma AcceptBacked(s: System, c: B.Config, t: P.Target)
    requires Inv(s) && Can(s, c, Gateway(P.Accept(t)))
    ensures Inv(Perform(s, c, Gateway(P.Accept(t))))
  {
    DiskKeeps(s.disk, P.Accept(t));
    var s' := Perform(s, c, Gateway(P.Accept(t)));
    AnsweredBy(s', Asked(s.disk.jobs[t]), t);
    forall u | u in s'.disk.accepted
      ensures Answered(s', u)
    {
      if u in s.disk.accepted { assert Answered(s, u); }
    }
  }

  lemma GatewayKeeps(s: System, c: B.Config, write: P.Write)
    requires Inv(s) && Can(s, c, Gateway(write))
    ensures Inv(Perform(s, c, Gateway(write)))
  {
    match write
    case Create(_, _) => PutBacked(s, c, write);
    case Edit(_, _) => PutBacked(s, c, write);
    case WriteBack(_, _) => PutBacked(s, c, write);
    case Enqueue(page, grant, now) => EnqueueBacked(s, c, page, grant, now);
    case Accept(t) => AcceptBacked(s, c, t);
    case _ =>
      DiskKeeps(s.disk, write);
      var s' := Perform(s, c, Gateway(write));
      forall t | t in s'.disk.accepted
        ensures Answered(s', t)
      {
        assert Answered(s, t);
      }
  }

  /** Whatever the broker does, an answer stands. */
  lemma AnswerStands(s: System, c: B.Config, act: B.Act, k: G.Key, t: P.Target)
    requires B.AllTracked(s.world) && B.Can(s.world, c, act) && Offered(s.world, k, t)
    ensures Offered(B.Perform(s.world, c, act), k, t)
  {
    assert B.Tracked(s.world, k) && G.RowOk(s.world.g, k);
    B.ActTracks(s.world, c, act, k);
  }

  lemma BrokerKeeps(s: System, c: B.Config, act: B.Act)
    requires Inv(s) && Can(s, c, Broker(act))
    ensures Inv(Perform(s, c, Broker(act)))
  {
    var s' := Perform(s, c, Broker(act));
    B.ActTracksAll(s.world, c, act);
    forall h | h in s'.disk.committed && P.Remote(h.grant)
      ensures Offered(s'.world, KeyOf(h), P.TargetOf(h.grant))
    {
      AnswerStands(s, c, act, KeyOf(h), P.TargetOf(h.grant));
    }
    forall t | t in s'.disk.jobs
      ensures Offered(s'.world, Asked(s'.disk.jobs[t]), t)
    {
      AnswerStands(s, c, act, Asked(s.disk.jobs[t]), t);
    }
    forall k | k in s'.answered
      ensures k in s'.world.saved && B.Settled(s'.world, k)
    {
      assert B.Tracked(s.world, k) && G.RowOk(s.world.g, k);
      B.ActTracks(s.world, c, act, k);
    }
    forall t | t in s'.disk.accepted
      ensures Answered(s', t)
    {
      assert Answered(s, t);
      var k :| k in s.answered && Offered(s.world, k, t);
      AnswerStands(s, c, act, k, t);
      AnsweredBy(s', k, t);
    }
  }

  lemma AnswerKeeps(s: System, c: B.Config, t: P.Target)
    requires Inv(s) && Can(s, c, Answer(t))
    ensures Inv(Perform(s, c, Answer(t)))
  {
    var s' := Perform(s, c, Answer(t));
    assert Offered(s.world, Asked(s.disk.jobs[t]), t);
    assert B.Tracked(s.world, Asked(s.disk.jobs[t]));
    forall u | u in s'.disk.accepted
      ensures Answered(s', u)
    {
      assert Answered(s, u);
      var k :| k in s.answered && Offered(s.world, k, u);
      AnsweredBy(s', k, u);
    }
  }

  lemma MoveKeeps(s: System, c: B.Config, m: Move)
    requires Inv(s) && Can(s, c, m)
    ensures Inv(Perform(s, c, m))
  {
    match m
    case Gateway(write) => GatewayKeeps(s, c, write);
    case Broker(act) => BrokerKeeps(s, c, act);
    case Answer(t) => AnswerKeeps(s, c, t);
  }

  // ---------------------------------------------------------------- all runs

  /** Any schedule; a move that is not possible when its turn comes does nothing. */
  ghost function Execute(s: System, c: B.Config, moves: seq<Move>): System
    decreases |moves|
  {
    if moves == [] then s
    else Execute(if Can(s, c, moves[0]) then Perform(s, c, moves[0]) else s, c, moves[1..])
  }

  lemma {:induction false} ExecuteKeeps(s: System, c: B.Config, moves: seq<Move>)
    requires Inv(s)
    ensures Inv(Execute(s, c, moves))
    decreases |moves|
  {
    if moves != [] {
      if Can(s, c, moves[0]) {
        MoveKeeps(s, c, moves[0]);
        ExecuteKeeps(Perform(s, c, moves[0]), c, moves[1..]);
      } else {
        ExecuteKeeps(s, c, moves[1..]);
      }
    }
  }

  /** The grant has no mapping any more, its row is closed, and the deletion of the resource that the
      Gateway recorded for it was confirmed. */
  ghost predicate Deleted(w: B.World, h: P.Held) {
    var k := KeyOf(h);
    && k !in w.mappings && G.HasRow(w.g, k, G.Revoked)
    && w.g.rows[k].crid == Some(h.grant.resource) && h.grant.resource in w.g.confirmed
  }

  /** Somebody still holds the grant, or still has its deletion to do under the grant's own name. */
  ghost predicate Owed(s: System, h: P.Held) {
    || OnDisk(s.disk, h)
    || (P.TargetOf(h.grant) in s.disk.jobs && Asked(s.disk.jobs[P.TargetOf(h.grant)]) == KeyOf(h))
    || KeyOf(h) in s.world.queue
  }

  lemma ClosedIsDeleted(w: B.World, h: P.Held)
    requires B.AllTracked(w) && Offered(w, KeyOf(h), P.TargetOf(h.grant)) && B.Closed(w, KeyOf(h))
    ensures Deleted(w, h)
  {
    assert B.Tracked(w, KeyOf(h)) && G.RowOk(w.g, KeyOf(h));
  }

  /** In every run of Gateway and broker together, at every crash point of either: a grant that was
      ever committed is in its page, in a marker, in the cleanup queue, or in the broker's queue of
      deferred revocations, until the deletion of its resource was confirmed. */
  lemma NoDeletionIsLost(c: B.Config, moves: seq<Move>, h: P.Held)
    requires h in Execute(START, c, moves).disk.committed && P.Remote(h.grant)
    ensures var s := Execute(START, c, moves); Owed(s, h) || Deleted(s.world, h)
  {
    B.StartTracks();
    ExecuteKeeps(START, c, moves);
    var s := Execute(START, c, moves);
    var t := P.TargetOf(h.grant);
    assert Offered(s.world, KeyOf(h), t) && P.Accounted(s.disk, h);
    if h in s.disk.enqueued {
      assert P.Handed(s.disk, h);
      if t in s.disk.jobs {
        OffersAreDistinct(s.world, KeyOf(h), t, Asked(s.disk.jobs[t]), t);
      } else {
        assert Answered(s, t);
        var k :| k in s.answered && Offered(s.world, k, t);
        OffersAreDistinct(s.world, KeyOf(h), t, k, t);
        if k !in s.world.queue {
          assert B.Tracked(s.world, k);
          ClosedIsDeleted(s.world, h);
        }
      }
    }
  }

  /** Broker acts as moves. */
  function Moves(acts: seq<B.Act>): seq<Move> {
    if acts == [] then [] else [Broker(acts[0])] + Moves(acts[1..])
  }

  lemma {:induction false} BrokerAlone(s: System, c: B.Config, acts: seq<B.Act>)
    ensures Execute(s, c, Moves(acts)) == s.(world := B.Execute(s.world, c, acts))
    decreases |acts|
  {
    if acts != [] {
      var next := if B.Can(s.world, c, acts[0]) then Perform(s, c, Broker(acts[0])) else s;
      assert Moves(acts)[1..] == Moves(acts[1..]);
      BrokerAlone(next, c, acts[1..]);
    }
  }

  lemma {:induction false} OfferStands(s: System, c: B.Config, acts: seq<B.Act>, k: G.Key, t: P.Target)
    requires Inv(s) && Offered(s.world, k, t)
    ensures Offered(B.Execute(s.world, c, acts), k, t)
    decreases |acts|
  {
    if acts != [] {
      if B.Can(s.world, c, acts[0]) {
        AnswerStands(s, c, acts[0], k, t);
        BrokerKeeps(s, c, acts[0]);
        OfferStands(Perform(s, c, Broker(acts[0])), c, acts[1..], k, t);
      } else {
        OfferStands(s, c, acts[1..], k, t);
      }
    }
  }

  /** And whatever happened, the deletion of a committed grant's resource can still be completed. */
  lemma DeletionIsNeverStuck(c: B.Config, moves: seq<Move>, h: P.Held)
    requires h in Execute(START, c, moves).disk.committed && P.Remote(h.grant)
    ensures exists more :: Deleted(Execute(Execute(START, c, moves), c, more).world, h)
  {
    B.StartTracks();
    ExecuteKeeps(START, c, moves);
    var s := Execute(START, c, moves);
    var k := KeyOf(h);
    assert Offered(s.world, k, P.TargetOf(h.grant)) && B.Tracked(s.world, k);
    B.NeverStuckFrom(s.world, c, k);
    var acts :| B.Closed(B.Execute(s.world, c, acts), k);
    BrokerAlone(s, c, acts);
    ExecuteKeeps(s, c, Moves(acts));
    OfferStands(s, c, acts, k, P.TargetOf(h.grant));
    ClosedIsDeleted(B.Execute(s.world, c, acts), h);
    assert Deleted(Execute(s, c, Moves(acts)).world, h);
  }
}
