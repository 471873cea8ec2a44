/** The Gateway, which lists grants, and the LayerV broker, which owns their resources.  Either may
    crash, replies may be lost, and the Gateway's requests, the deferred revocations, the orphan
    scan and the retirement retries interleave freely.  Guest isolation only, and no reset. */
module BrokerProtocol {
  import opened GuestResources
  import opened Options

  /** A mapping file's contents: the invitation and the resource it belongs to. */
  datatype Mapping = Mapping(qurl: string, crid: Crid)

  /** What the broker answers, and when it saved it. */
  datatype Offer = Offer(mapping: Mapping, at: int)

  /** Who holds the broker's store lock: a mint, or the revocation of one grant. */
  datatype Thread = Idle | Minting(key: Key) | Revoking(key: Key)

  /** Seconds from the save of a grant's mapping to its commit by the Gateway, at most, and whether the broker can
      read the Gateway's grants (ACCESS_PAGES_GATEWAY_GRANTS_DIR is set). */
  datatype Config = Config(window: int, gatewayVisible: bool)

  const DEFER_SECONDS := 15
  const GRACE_SECONDS := 300

  /** `saved` is every grant that ever had a mapping file, `offers` the answers the Gateway got,
      `committed` the grants it has ever listed, `immediate` delete requests that found no mapping. */
  datatype World = World(
    g: State, mappings: map<Key, Mapping>, queue: map<Key, int>, thread: Thread,
    listed: map<Key, Mapping>, offers: map<Key, Offer>, committed: set<Key>, saved: set<Key>,
    immediate: set<Key>, now: int)

  const START := World(EMPTY, map[], map[], Idle, map[], map[], {}, {}, {}, 0)

  datatype Act =
    | Tick(seconds: nat) | Crash
    | BeginMint(key: Key) | Resource(step: Step) | SaveMapping(qurl: string) | SaveFailed(qurl: string) | Compensate
    | DrainPick(key: Key) | OrphanPick(key: Key) | OrphanQueue(key: Key) | RetryPick(key: Key) | ServeDelete(key: Key)
    | ServeUnmapped(key: Key)
    | RemoveMapping | Requeue(key: Key, due: int) | Unqueue(key: Key)
    | Commit(key: Key) | Unlist(key: Key) | RequestDelete(key: Key)

  /** _gateway_grant_live. */
  predicate Live(w: World, c: Config, k: Key) {
    k in w.mappings && (!c.gatewayVisible || (k in w.listed && w.listed[k] == w.mappings[k]))
  }

  /** Which steps on the rows the holder of the store lock performs. */
  predicate ThreadSteps(t: Thread, step: Step) {
    match t
    case Idle => false
    case Minting(k) => (step.Insert? || step.Publish? || step.CommitReady?) && step.key == k
    case Revoking(k) =>
      && !step.RotatePool? && !step.ResetRow? && !step.ManagementOnly? && !step.Insert?
      && step.key == k
  }

  /** An unretired allocation older than the grace period. */
  predicate Orphanable(w: World, k: Key) {
    (HasRow(w.g, k, Creating) || HasRow(w.g, k, Ready)) && w.g.rows[k].created <= w.now - GRACE_SECONDS
  }

  predicate Can(w: World, c: Config, act: Act) {
    match act
    case Tick(_) => true
    case Crash => true
    case BeginMint(k) => w.thread.Idle? && k !in w.mappings && k.owner.Guest?
    case Resource(step) => ThreadSteps(w.thread, step) && Allowed(w.g, step)
    case SaveMapping(_) => w.thread.Minting? && HasRow(w.g, w.thread.key, Ready) && w.g.rows[w.thread.key].crid.Some?
    case SaveFailed(_) => w.thread.Minting? && HasRow(w.g, w.thread.key, Ready) && w.g.rows[w.thread.key].crid.Some?
    case Compensate => w.thread.Minting?
    case DrainPick(k) =>
      w.thread.Idle? && k in w.queue && w.queue[k] <= w.now && !(c.gatewayVisible && Live(w, c, k))
    case OrphanPick(k) => w.thread.Idle? && Orphanable(w, k) && k !in w.mappings
    case OrphanQueue(k) => w.thread.Idle? && Orphanable(w, k) && k in w.mappings && !Live(w, c, k)
    case RetryPick(k) => w.thread.Idle? && HasRow(w.g, k, Retiring)
    case ServeDelete(k) => w.thread.Idle? && k in w.immediate
    case ServeUnmapped(k) => w.thread.Idle? && k !in w.mappings
    case RemoveMapping => w.thread.Revoking? && HasRow(w.g, w.thread.key, Revoked)
    case Requeue(k, due) => k in w.queue && w.queue[k] <= due
    case Unqueue(k) => k !in w.mappings
    case Commit(k) => k in w.offers && k !in w.committed && w.now < w.offers[k].at + c.window
    case Unlist(k) => k in w.listed
    case RequestDelete(k) => k in w.mappings || k in w.saved
  }

  function Deferred(w: World, k: Key): World {
    if k in w.queue then w else w.(queue := w.queue[k := w.now + DEFER_SECONDS])
  }

  function Perform(w: World, c: Config, act: Act): World
    requires Can(w, c, act)
  {
    match act
    case Tick(seconds) => w.(now := w.now + seconds)
    case Crash => w.(thread := Idle)
    case BeginMint(k) => w.(thread := Minting(k))
    case Resource(step) => w.(g := Apply(w.g, step))
    case SaveMapping(qurl) =>
      var k := w.thread.key;
      var m := Mapping(qurl, w.g.rows[k].crid.value);
      w.(mappings := w.mappings[k := m], saved := w.saved + {k}, offers := w.offers[k := Offer(m, w.now)], thread := Idle)
    case SaveFailed(qurl) =>
      var k := w.thread.key;
      var m := Mapping(qurl, w.g.rows[k].crid.value);
      w.(mappings := w.mappings[k := m], saved := w.saved + {k}, thread := Revoking(k))
    case Compensate => w.(thread := Revoking(w.thread.key))
    case DrainPick(k) => w.(thread := Revoking(k))
    case OrphanPick(k) => w.(thread := Revoking(k))
    case OrphanQueue(k) => Deferred(w, k)
    case RetryPick(k) => w.(thread := Revoking(k))
    case ServeDelete(k) => w.(thread := Revoking(k), immediate := w.immediate - {k})
    case ServeUnmapped(k) => w.(thread := Revoking(k))
    case RemoveMapping => w.(mappings := w.mappings - {w.thread.key})
    case Requeue(k, due) => w.(queue := w.queue[k := due])
    case Unqueue(k) => w.(queue := w.queue - {k})
    case Commit(k) => w.(listed := w.listed[k := w.offers[k].mapping], committed := w.committed + {k})
    case Unlist(k) => w.(listed := w.listed - {k})
    case RequestDelete(k) =>
      if k in w.mappings then Deferred(w, k) else w.(immediate := w.immediate + {k})
  }

  // ---------------------------------------------------------------- invariant

  /** Listed, or answered and still going to be. */
  predicate Alive(w: World, c: Config, k: Key) {
    k in w.listed || (k in w.offers && k !in w.committed && w.now < w.offers[k].at + c.window)
  }

  /** The grant's mapping file is there, names the offered invitation and resource, and the
      resource is ready. */
  predicate Intact(w: World, k: Key) {
    && k in w.offers && k in w.mappings && w.mappings[k] == w.offers[k].mapping
    && HasRow(w.g, k, Ready) && w.g.rows[k].crid == Some(w.mappings[k].crid)
    && (k in w.listed ==> w.listed[k] == w.mappings[k])
  }

  ghost predicate KeyInv(w: World, c: Config, k: Key) {
    && (Alive(w, c, k) ==> Intact(w, k))
    && (k in w.listed ==> k in w.committed) && (k in w.committed ==> k in w.offers) && (k in w.offers ==> k in w.saved)
    && (k in w.mappings || k in w.queue || k in w.immediate ==> k in w.saved)
    && (k in w.saved ==> k in w.mappings || HasRow(w.g, k, Revoked))
    && (k in w.offers ==> w.offers[k].at <= w.now)
    && (k in w.offers && k in w.queue ==> w.offers[k].at + DEFER_SECONDS <= w.queue[k])
    && (k in w.immediate ==> !Alive(w, c, k))
    && (w.thread == Revoking(k) ==> !Alive(w, c, k))
    && (w.thread == Minting(k) ==> k !in w.mappings)
  }

  ghost predicate ProtocolInv(w: World, c: Config) {
    forall k :: KeyInv(w, c, k)
  }

  /** A step on the rows of one grant leaves the rows of all others alone, never reopens a closed
      row and, by a mint, never unreadies a row. */
  lemma RowsElsewhere(w: World, step: Step, k: Key)
    requires ThreadSteps(w.thread, step) && Allowed(w.g, step)
    ensures k != w.thread.key ==>
              (k in Apply(w.g, step).rows <==> k in w.g.rows) &&
              (k in w.g.rows ==> Apply(w.g, step).rows[k] == w.g.rows[k])
    ensures HasRow(w.g, k, Revoked) ==> HasRow(Apply(w.g, step), k, Revoked)
  {
  }

  lemma RowStepKeepsKey(w: World, c: Config, step: Step, k: Key)
    requires KeyInv(w, c, k) && Can(w, c, Resource(step)) && c.window <= DEFER_SECONDS && c.gatewayVisible
    ensures KeyInv(Perform(w, c, Resource(step)), c, k)
  {
    RowsElsewhere(w, step, k);
  }

  /** Acts that start or end a mint or a revocation. */
  predicate OfThread(act: Act) {
    act.Crash? || act.BeginMint? || act.SaveMapping? || act.SaveFailed? || act.Compensate? || act.RemoveMapping?
  }

  lemma ThreadActKeeps(w: World, c: Config, act: Act, k: Key)
    requires KeyInv(w, c, k) && Can(w, c, act) && OfThread(act) && c.window <= DEFER_SECONDS && c.gatewayVisible
    ensures KeyInv(Perform(w, c, act), c, k)
  {
  }

  predicate Picks(act: Act) {
    act.DrainPick? || act.OrphanPick? || act.RetryPick? || act.ServeDelete? || act.ServeUnmapped?
  }

  lemma PickKeeps(w: World, c: Config, act: Act, k: Key)
    requires KeyInv(w, c, k) && Can(w, c, act) && Picks(act) && c.window <= DEFER_SECONDS && c.gatewayVisible
    ensures KeyInv(Perform(w, c, act), c, k)
  {
  }

  predicate OfGateway(act: Act) {
    act.Tick? || act.Commit? || act.Unlist?
  }

  lemma GatewayActKeeps(w: World, c: Config, act: Act, k: Key)
    requires KeyInv(w, c, k) && Can(w, c, act) && OfGateway(act) && c.window <= DEFER_SECONDS && c.gatewayVisible
    ensures KeyInv(Perform(w, c, act), c, k)
  {
  }

  lemma QueueActKeeps(w: World, c: Config, act: Act, k: Key)
    requires KeyInv(w, c, k) && Can(w, c, act) && c.window <= DEFER_SECONDS && c.gatewayVisible
    requires act.OrphanQueue? || act.Requeue? || act.Unqueue? || act.RequestDelete?
    ensures KeyInv(Perform(w, c, act), c, k)
  {
  }

  lemma ActKeeps(w: World, c: Config, act: Act, k: Key)
    requires ProtocolInv(w, c) && Can(w, c, act) && c.window <= DEFER_SECONDS && c.gatewayVisible
    ensures KeyInv(Perform(w, c, act), c, k)
  {
    assert KeyInv(w, c, k);
    if act.Resource? {
      RowStepKeepsKey(w, c, act.step, k);
    } else if OfThread(act) {
      ThreadActKeeps(w, c, act, k);
    } else if Picks(act) {
      PickKeeps(w, c, act, k);
    } else if OfGateway(act) {
      GatewayActKeeps(w, c, act, k);
    } else {
      QueueActKeeps(w, c, act, k);
    }
  }

  // ---------------------------------------------------------------- all runs

  /** Any schedule; an act that is not possible when its turn comes does nothing. */
  function Execute(w: World, c: Config, acts: seq<Act>): World
    decreases |acts|
  {
    if acts == [] then w
    else Execute(if Can(w, c, acts[0]) then Perform(w, c, acts[0]) else w, c, acts[1..])
  }

  /** Every grant the Gateway lists still has its mapping and a ready resource of its own. */
  ghost predicate ListedIntact(w: World) {
    forall k :: k in w.listed ==> Intact(w, k) && k !in w.g.retirements
  }

  lemma {:induction false} ExecuteKeeps(w: World, c: Config, acts: seq<Act>)
    requires ProtocolInv(w, c) && Inv(w.g) && c.window <= DEFER_SECONDS && c.gatewayVisible
    ensures ProtocolInv(Execute(w, c, acts), c) && Inv(Execute(w, c, acts).g)
    decreases |acts|
  {
    if acts != [] {
      if Can(w, c, acts[0]) {
        forall k
          ensures KeyInv(Perform(w, c, acts[0]), c, k)
        {
          ActKeeps(w, c, acts[0], k);
        }
        if acts[0].Resource? {
          StepKeepsInv(w.g, acts[0].step);
        }
        ExecuteKeeps(Perform(w, c, acts[0]), c, acts[1..]);
      } else {
        ExecuteKeeps(w, c, acts[1..]);
      }
    }
  }

  /** With the Gateway visible to the broker and commits within the deferral, no interleaving,
      crash or lost reply ever retires a grant that is listed: not the deferred queue, not the
      orphan scan, not a cleanup queued before a crash that left the grant in place. */
  lemma ListedGrantsAreNeverRetired(c: Config, acts: seq<Act>)
    requires c.window <= DEFER_SECONDS && c.gatewayVisible
    ensures ListedIntact(Execute(START, c, acts))
  {
    EmptyOk();
    ExecuteKeeps(START, c, acts);
    var w := Execute(START, c, acts);
    forall k | k in w.listed
      ensures Intact(w, k) && k !in w.g.retirements
    {
      assert KeyInv(w, c, k);
    }
  }

  lemma {:induction false} ExecuteConcat(w: World, c: Config, acts: seq<Act>, more: seq<Act>)
    ensures Execute(w, c, acts + more) == Execute(Execute(w, c, acts), c, more)
    decreases |acts|
  {
    if acts == [] {
      assert acts + more == more;
    } else {
      ExecuteConcat(if Can(w, c, acts[0]) then Perform(w, c, acts[0]) else w, c, acts[1..], more);
      assert (acts + more)[1..] == acts[1..] + more;
    }
  }

  const SAMPLE := Key("home", Guest("grant_abcdefghijklmnop"))

  /** A mint that takes five minutes, succeeds and is answered. */
  function Mint(): seq<Act> {
    [BeginMint(SAMPLE), Resource(Insert(SAMPLE, "i", "t", 0)), Tick(300), Resource(Publish(SAMPLE, "crid")),
     Resource(CommitReady(SAMPLE)), SaveMapping("q_1")]
  }

  /** The world after that mint. */
  function Minted(): World {
    var row := Row(Connector("i", "home", SAMPLE.owner, 0), "t", Some("crid"), Ready, 0, 0, 0);
    var m := Mapping("q_1", "crid");
    START.(g := EMPTY.(rows := map[SAMPLE := row], published := map[row.connector := "crid"]), now := 300,
           mappings := map[SAMPLE := m], saved := {SAMPLE}, offers := map[SAMPLE := Offer(m, 300)])
  }

  ghost predicate Leads(w: World, c: Config, act: Act, w': World) {
    Can(w, c, act) && Perform(w, c, act) == w'
  }

  /** Acts that are all possible when their turn comes. */
  lemma Schedule(w: seq<World>, c: Config, acts: seq<Act>)
    requires |w| == |acts| + 1
    requires forall i :: 0 <= i < |acts| ==> Leads(w[i], c, acts[i], w[i + 1])
    ensures Execute(w[0], c, acts) == w[|acts|]
  {
    ActsFrom(w, c, acts, 0);
    assert acts[0..] == acts;
  }

  lemma {:induction false} ActsFrom(w: seq<World>, c: Config, acts: seq<Act>, i: nat)
    requires |w| == |acts| + 1 && i <= |acts|
    requires forall j :: 0 <= j < |acts| ==> Leads(w[j], c, acts[j], w[j + 1])
    ensures Execute(w[i], c, acts[i..]) == w[|acts|]
    decreases |acts| - i
  {
    if i < |acts| {
      assert Leads(w[i], c, acts[i], w[i + 1]);
      assert acts[i..][0] == acts[i] && acts[i..][1..] == acts[i + 1..];
      ActsFrom(w, c, acts, i + 1);
    }
  }

  const SAMPLE_MAPPING := Mapping("q_1", "crid")
  const SAMPLE_CONNECTOR := Connector("i", "home", SAMPLE.owner, 0)

  function MintWorlds(): seq<World> {
    var row := Row(SAMPLE_CONNECTOR, "t", None, Creating, 0, 0, 0);
    var w1 := START.(thread := Minting(SAMPLE));
    var w2 := w1.(g := EMPTY.(rows := map[SAMPLE := row]));
    var w3 := w2.(now := 300);
    var w4 := w3.(g := w3.g.(published := map[SAMPLE_CONNECTOR := "crid"]));
    var w5 := w4.(g := w4.g.(rows := map[SAMPLE := row.(crid := Some("crid"), phase := Ready)]));
    [START, w1, w2, w3, w4, w5, Minted()]
  }

  lemma MintBegins(c: Config, i: nat)
    requires i < 3
    ensures Leads(MintWorlds()[i], c, Mint()[i], MintWorlds()[i + 1])
  {
    assert ConnectorFor(EMPTY, "i", SAMPLE) == SAMPLE_CONNECTOR;
  }

  lemma MintEnds(c: Config, i: nat)
    requires 3 <= i < 6
    ensures Leads(MintWorlds()[i], c, Mint()[i], MintWorlds()[i + 1])
  {
  }

  lemma MintWorks(c: Config)
    ensures Execute(START, c, Mint()) == Minted()
  {
    forall i | 0 <= i < 6
      ensures Leads(MintWorlds()[i], c, Mint()[i], MintWorlds()[i + 1])
    {
      if i < 3 {
        MintBegins(c, i);
      } else {
        MintEnds(c, i);
      }
    }
    Schedule(MintWorlds(), c, Mint());
  }

  function RetiringState(): State {
    var g := Minted().g;
    g.(rows := map[SAMPLE := g.rows[SAMPLE].(phase := Retiring)],
       retirements := map[SAMPLE := Retirement("crid", 315, 0, "", false)])
  }

  function Late(): seq<Act> {
    [OrphanQueue(SAMPLE), Tick(15), DrainPick(SAMPLE), Resource(MarkRetiring(SAMPLE, "", 315)), Commit(SAMPLE)]
  }

  function LateWorlds(): seq<World> {
    var w1 := Minted().(queue := map[SAMPLE := 315]);
    var w2 := w1.(now := 315);
    var w3 := w2.(thread := Revoking(SAMPLE));
    var w4 := w3.(g := RetiringState());
    [Minted(), w1, w2, w3, w4, w4.(listed := map[SAMPLE := SAMPLE_MAPPING], committed := {SAMPLE})]
  }

  lemma LateBegins(c: Config, i: nat)
    requires i < 3 && c.window > DEFER_SECONDS && c.gatewayVisible
    ensures Leads(LateWorlds()[i], c, Late()[i], LateWorlds()[i + 1])
  {
  }

  lemma LateEnds(c: Config, i: nat)
    requires 3 <= i < 5 && c.window > DEFER_SECONDS && c.gatewayVisible
    ensures Leads(LateWorlds()[i], c, Late()[i], LateWorlds()[i + 1])
  {
  }

  lemma LateWorks(c: Config)
    requires c.window > DEFER_SECONDS && c.gatewayVisible
    ensures Execute(Minted(), c, Late()) == LateWorlds()[5]
  {
    forall i | 0 <= i < 5
      ensures Leads(LateWorlds()[i], c, Late()[i], LateWorlds()[i + 1])
    {
      if i < 3 {
        LateBegins(c, i);
      } else {
        LateEnds(c, i);
      }
    }
    Schedule(LateWorlds(), c, Late());
  }

  /** If the Gateway may commit 15 seconds after the answer or later, the orphan scan can queue
      the slowly minted grant and the drain retire it just before it is listed. */
  lemma LateCommitLosesGrant(c: Config)
    requires c.window > DEFER_SECONDS && c.gatewayVisible
    ensures !ListedIntact(Execute(START, c, Mint() + Late()))
  {
    MintWorks(c);
    LateWorks(c);
    ExecuteConcat(START, c, Mint(), Late());
    assert SAMPLE in LateWorlds()[5].listed;
  }

  function Blind(): seq<Act> {
    [Commit(SAMPLE), RequestDelete(SAMPLE), Tick(15), DrainPick(SAMPLE), Resource(MarkRetiring(SAMPLE, "", 315))]
  }

  function BlindWorlds(): seq<World> {
    var w1 := Minted().(listed := map[SAMPLE := SAMPLE_MAPPING], committed := {SAMPLE});
    var w2 := w1.(queue := map[SAMPLE := 315]);
    var w3 := w2.(now := 315);
    var w4 := w3.(thread := Revoking(SAMPLE));
    [Minted(), w1, w2, w3, w4, w4.(g := RetiringState())]
  }

  lemma BlindBegins(c: Config, i: nat)
    requires i < 3 && c.window > 0 && !c.gatewayVisible
    ensures Leads(BlindWorlds()[i], c, Blind()[i], BlindWorlds()[i + 1])
  {
  }

  lemma BlindEnds(c: Config, i: nat)
    requires 3 <= i < 5 && c.window > 0 && !c.gatewayVisible
    ensures Leads(BlindWorlds()[i], c, Blind()[i], BlindWorlds()[i + 1])
  {
  }

  lemma BlindWorks(c: Config)
    requires c.window > 0 && !c.gatewayVisible
    ensures Execute(Minted(), c, Blind()) == BlindWorlds()[5]
  {
    forall i | 0 <= i < 5
      ensures Leads(BlindWorlds()[i], c, Blind()[i], BlindWorlds()[i + 1])
    {
      if i < 3 {
        BlindBegins(c, i);
      } else {
        BlindEnds(c, i);
      }
    }
    Schedule(BlindWorlds(), c, Blind());
  }

  /** If the broker cannot see the Gateway's grants, a cleanup enqueued before a crash that left
      the grant listed retires it. */
  lemma BlindBrokerLosesGrant(c: Config)
    requires c.window > 0 && !c.gatewayVisible
    ensures !ListedIntact(Execute(START, c, Mint() + Blind()))
  {
    MintWorks(c);
    BlindWorks(c);
    ExecuteConcat(START, c, Mint(), Blind());
    assert SAMPLE in BlindWorlds()[5].listed;
  }

  /** The exact condition under which guest isolation holds in every run. */
  lemma GuestIsolationExactly(c: Config)
    requires c.window > 0
    ensures (forall acts :: ListedIntact(Execute(START, c, acts))) <==> c.gatewayVisible && c.window <= DEFER_SECONDS
  {
    if c.gatewayVisible && c.window <= DEFER_SECONDS {
      forall acts
        ensures ListedIntact(Execute(START, c, acts))
      {
        ListedGrantsAreNeverRetired(c, acts);
      }
    } else if !c.gatewayVisible {
      BlindBrokerLosesGrant(c);
    } else {
      LateCommitLosesGrant(c);
    }
  }

  // ---------------------------------------------------------------- no revocation is lost

  /** The grant's deletion is on record or done: it is queued, or it has no mapping and its row, if
      there is one, is closed. */
  predicate Settled(w: World, k: Key) {
    k in w.queue || (k !in w.mappings && (k in w.g.rows ==> HasRow(w.g, k, Revoked)))
  }

  /** A saved grant is mapped to its own row's resource or closed, and so is every answer, whatever
      the broker can see and whenever the Gateway commits. */
  ghost predicate Tracked(w: World, k: Key) {
    && (k in w.mappings || k in w.queue || k in w.offers ==> k in w.saved)
    && (k in w.mappings ==> k in w.g.rows && w.g.rows[k].crid == Some(w.mappings[k].crid))
    && (k in w.offers ==> k in w.g.rows && w.g.rows[k].crid == Some(w.offers[k].mapping.crid))
    && (k in w.saved ==> k in w.mappings || HasRow(w.g, k, Revoked))
    && (w.thread == Minting(k) ==> k !in w.mappings)
  }

  ghost predicate AllTracked(w: World) {
    Inv(w.g) && forall k :: Tracked(w, k)
  }

  /** A CRID once bound stays bound. */
  lemma CridKept(w: World, step: Step, k: Key)
    requires ThreadSteps(w.thread, step) && Allowed(w.g, step) && RowOk(w.g, k) && k in w.g.rows && w.g.rows[k].crid.Some?
    ensures k in Apply(w.g, step).rows && Apply(w.g, step).rows[k].crid == w.g.rows[k].crid
  {
  }

  lemma RowStepTracks(w: World, c: Config, step: Step, k: Key)
    requires Tracked(w, k) && RowOk(w.g, k) && Can(w, c, Resource(step))
    ensures Tracked(Perform(w, c, Resource(step)), k)
    ensures k in w.saved && Settled(w, k) ==> Settled(Perform(w, c, Resource(step)), k)
  {
    RowsElsewhere(w, step, k);
    if k in w.g.rows && w.g.rows[k].crid.Some? {
      CridKept(w, step, k);
    }
  }

  lemma ThreadActTracks(w: World, c: Config, act: Act, k: Key)
    requires Tracked(w, k) && RowOk(w.g, k) && Can(w, c, act) && OfThread(act)
    ensures Tracked(Perform(w, c, act), k)
    ensures k in w.saved && Settled(w, k) ==> Settled(Perform(w, c, act), k)
    ensures k in w.offers ==> k in Perform(w, c, act).offers && Perform(w, c, act).offers[k] == w.offers[k]
    ensures w.saved <= Perform(w, c, act).saved
  {
  }

  lemma PickTracks(w: World, c: Config, act: Act, k: Key)
    requires Tracked(w, k) && RowOk(w.g, k) && Can(w, c, act) && Picks(act)
    ensures Tracked(Perform(w, c, act), k)
    ensures k in w.saved && Settled(w, k) ==> Settled(Perform(w, c, act), k)
    ensures k in w.offers ==> k in Perform(w, c, act).offers && Perform(w, c, act).offers[k] == w.offers[k]
    ensures w.saved <= Perform(w, c, act).saved
  {
  }

  lemma OtherActTracks(w: World, c: Config, act: Act, k: Key)
    requires Tracked(w, k) && RowOk(w.g, k) && Can(w, c, act) && !OfThread(act) && !Picks(act) && !act.Resource?
    ensures Tracked(Perform(w, c, act), k)
    ensures k in w.saved && Settled(w, k) ==> Settled(Perform(w, c, act), k)
    ensures k in w.offers ==> k in Perform(w, c, act).offers && Perform(w, c, act).offers[k] == w.offers[k]
    ensures w.saved <= Perform(w, c, act).saved
  {
  }

  /** No act loses a deletion that is on record, or takes back an answer. */
  lemma ActTracks(w: World, c: Config, act: Act, k: Key)
    requires Tracked(w, k) && RowOk(w.g, k) && Can(w, c, act)
    ensures Tracked(Perform(w, c, act), k)
    ensures k in w.saved && Settled(w, k) ==> Settled(Perform(w, c, act), k)
    ensures k in w.offers ==> k in Perform(w, c, act).offers && Perform(w, c, act).offers[k] == w.offers[k]
    ensures w.saved <= Perform(w, c, act).saved
  {
    if act.Resource? {
      RowStepTracks(w, c, act.step, k);
    } else if OfThread(act) {
      ThreadActTracks(w, c, act, k);
    } else if Picks(act) {
      PickTracks(w, c, act, k);
    } else {
      OtherActTracks(w, c, act, k);
    }
  }

  lemma ActTracksAll(w: World, c: Config, act: Act)
    requires AllTracked(w) && Can(w, c, act)
    ensures AllTracked(Perform(w, c, act))
  {
    forall k
      ensures Tracked(Perform(w, c, act), k)
    {
      assert Tracked(w, k) && RowOk(w.g, k);
      ActTracks(w, c, act, k);
    }
    if act.Resource? {
      StepKeepsInv(w.g, act.step);
    }
  }

  lemma StartTracks()
    ensures AllTracked(START)
  {
    EmptyOk();
  }

  lemma {:induction false} ExecuteTracks(w: World, c: Config, acts: seq<Act>, k: Key)
    requires AllTracked(w)
    ensures AllTracked(Execute(w, c, acts))
    ensures k in w.saved && Settled(w, k) ==> k in Execute(w, c, acts).saved && Settled(Execute(w, c, acts), k)
    decreases |acts|
  {
    if acts != [] {
      if Can(w, c, acts[0]) {
        assert Tracked(w, k) && RowOk(w.g, k);
        ActTracks(w, c, acts[0], k);
        ActTracksAll(w, c, acts[0]);
        ExecuteTracks(Perform(w, c, acts[0]), c, acts[1..], k);
      } else {
        ExecuteTracks(w, c, acts[1..], k);
      }
    }
  }

  /** From the moment a revocation is queued, in every run, whatever fails or crashes: it is still
      queued, or the grant has no mapping any more and the deletion of its resource was confirmed. */
  lemma QueuedRevocationIsKept(c: Config, acts: seq<Act>, more: seq<Act>, k: Key)
    requires k in Execute(START, c, acts).queue
    ensures var w := Execute(START, c, acts + more);
            || k in w.queue
            || (k !in w.mappings && HasRow(w.g, k, Revoked)
                && (k in w.offers ==> w.g.rows[k].crid == Some(w.offers[k].mapping.crid) && w.offers[k].mapping.crid in w.g.confirmed))
  {
    StartTracks();
    ExecuteTracks(START, c, acts, k);
    ExecuteConcat(START, c, acts, more);
    var w := Execute(START, c, acts);
    assert Tracked(w, k);
    ExecuteTracks(w, c, more, k);
    var w' := Execute(w, c, more);
    assert Tracked(w', k) && RowOk(w'.g, k);
  }

  // ---------------------------------------------------------------- no revocation is stuck

  predicate Closed(w: World, k: Key) {
    k !in w.mappings && HasRow(w.g, k, Revoked)
  }

  ghost predicate CanClose(w: World, c: Config, k: Key) {
    exists acts :: Closed(Execute(w, c, acts), k)
  }

  lemma ClosesBy(w: World, c: Config, acts: seq<Act>, k: Key)
    requires Closed(Execute(w, c, acts), k)
    ensures CanClose(w, c, k)
  {
  }

  lemma CloseAfter(w: World, c: Config, act: Act, k: Key)
    requires Can(w, c, act) && CanClose(Perform(w, c, act), c, k)
    ensures CanClose(w, c, k)
  {
    var acts :| Closed(Execute(Perform(w, c, act), c, acts), k);
    assert ([act] + acts)[1..] == acts;
    ClosesBy(w, c, [act] + acts, k);
  }

  lemma CloseRevoked(w: World, c: Config, k: Key)
    requires w.thread == Revoking(k) && HasRow(w.g, k, Revoked)
    ensures CanClose(w, c, k)
  {
    ClosesBy(Perform(w, c, RemoveMapping), c, [], k);
    CloseAfter(w, c, RemoveMapping, k);
  }

  lemma CloseRetiring(w: World, c: Config, k: Key)
    requires w.thread == Revoking(k) && HasRow(w.g, k, Retiring) && w.g.rows[k].crid.Some?
    ensures CanClose(w, c, k)
  {
    var remove, finish := Resource(Delete(k, Returned)), Resource(FinishRevoke(k));
    var w1 := Perform(w, c, remove);
    CloseRevoked(Perform(w1, c, finish), c, k);
    CloseAfter(w1, c, finish, k);
    CloseAfter(w, c, remove, k);
  }

  lemma CloseOwned(w: World, c: Config, k: Key)
    requires w.thread == Revoking(k) && k in w.g.rows && w.g.rows[k].crid.Some? && !w.g.rows[k].phase.Creating?
    ensures CanClose(w, c, k)
  {
    if HasRow(w.g, k, Revoked) {
      CloseRevoked(w, c, k);
    } else {
      var mark := Resource(MarkRetiring(k, "", w.now));
      CloseRetiring(Perform(w, c, mark), c, k);
      CloseAfter(w, c, mark, k);
    }
  }

  lemma CloseDue(w: World, c: Config, k: Key)
    requires w.thread.Idle? && k in w.queue && w.queue[k] <= w.now && k !in w.listed
    requires k in w.g.rows && w.g.rows[k].crid.Some? && !w.g.rows[k].phase.Creating?
    ensures CanClose(w, c, k)
  {
    CloseOwned(Perform(w, c, DrainPick(k)), c, k);
    CloseAfter(w, c, DrainPick(k), k);
  }

  lemma CloseQueued(w: World, c: Config, k: Key)
    requires w.thread.Idle? && k in w.queue && k !in w.listed
    requires k in w.g.rows && w.g.rows[k].crid.Some? && !w.g.rows[k].phase.Creating?
    ensures CanClose(w, c, k)
  {
    var wait := Tick(if w.queue[k] <= w.now then 0 else w.queue[k] - w.now);
    CloseDue(Perform(w, c, wait), c, k);
    CloseAfter(w, c, wait, k);
  }

  lemma CloseMapped(w: World, c: Config, k: Key)
    requires w.thread.Idle? && k in w.mappings && k !in w.listed
    requires k in w.g.rows && w.g.rows[k].crid.Some? && !w.g.rows[k].phase.Creating?
    ensures CanClose(w, c, k)
  {
    CloseQueued(Perform(w, c, RequestDelete(k)), c, k);
    CloseAfter(w, c, RequestDelete(k), k);
  }

  lemma NeverStuckFrom(w: World, c: Config, k: Key)
    requires AllTracked(w) && k in w.saved
    ensures CanClose(w, c, k)
  {
    assert Tracked(w, k) && RowOk(w.g, k);
    if k !in w.mappings {
      ClosesBy(w, c, [], k);
    } else {
      var w1 := Perform(w, c, Crash);
      if k in w1.listed {
        CloseMapped(Perform(w1, c, Unlist(k)), c, k);
        CloseAfter(w1, c, Unlist(k), k);
      } else {
        CloseMapped(w1, c, k);
      }
      CloseAfter(w, c, Crash, k);
    }
  }

  /** In every run, whatever crashed and whatever was cut off: a grant that ever had a mapping is
      closed, or some continuation still closes it. */
  lemma RevocationIsNeverStuck(c: Config, acts: seq<Act>, k: Key)
    requires k in Execute(START, c, acts).saved
    ensures CanClose(Execute(START, c, acts), c, k)
  {
    StartTracks();
    ExecuteTracks(START, c, acts, k);
    var w := Execute(START, c, acts);
    NeverStuckFrom(w, c, k);
  }

  // ---------------------------------------------------------------- recorded runs

  /** Every act was possible when it was performed. */
  predicate Trace(w: World, c: Config, acts: seq<Act>)
    decreases |acts|
  {
    acts == [] || (Can(w, c, acts[0]) && Trace(Perform(w, c, acts[0]), c, acts[1..]))
  }

  /** `acts` is a recorded run that leads from the start to `w`.  (The quantifier keeps the
      recursive definitions folded where only the recorded run itself matters.) */
  ghost predicate RecordedWorld(c: Config, acts: seq<Act>, w: World) {
    forall start :: start == START ==> Trace(start, c, acts) && Execute(start, c, acts) == w
  }

  lemma RecordedAct(c: Config, acts: seq<Act>, w: World, act: Act)
    requires RecordedWorld(c, acts, w) && Can(w, c, act)
    ensures RecordedWorld(c, acts + [act], Perform(w, c, act))
  {
    assert Trace(START, c, acts);
    TraceAppend(START, c, acts, act);
  }

  lemma {:induction false} TraceAppend(w: World, c: Config, acts: seq<Act>, act: Act)
    requires Trace(w, c, acts) && Can(Execute(w, c, acts), c, act)
    ensures Trace(w, c, acts + [act]) && Execute(w, c, acts + [act]) == Perform(Execute(w, c, acts), c, act)
    decreases |acts|
  {
    if acts == [] {
      assert acts + [act] == [act] && [act][1..] == [];
    } else {
      TraceAppend(Perform(w, c, acts[0]), c, acts[1..], act);
      assert (acts + [act])[1..] == acts[1..] + [act];
    }
  }

  lemma {:induction false} RowsStaySound(w: World, c: Config, acts: seq<Act>)
    requires Inv(w.g)
    ensures Inv(Execute(w, c, acts).g)
    decreases |acts|
  {
    if acts != [] {
      if Can(w, c, acts[0]) {
        if acts[0].Resource? {
          StepKeepsInv(w.g, acts[0].step);
        }
        RowsStaySound(Perform(w, c, acts[0]), c, acts[1..]);
      } else {
        RowsStaySound(w, c, acts[1..]);
      }
    }
  }
}
