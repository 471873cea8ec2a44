/** Durable ownership of upstream resources: one row per page and owner, written before the
    resource is published and kept until its deletion was confirmed.

    Every change is one SQLite transaction or one upstream effect, a `Step`.  The operations, in
    `GuestResourceStore` and `LayerVBroker`, are sequences of recorded steps, so a crash at any
    point leaves a prefix of a recorded run, and what holds of all runs holds after any crash. */
module GuestResources {
  import opened Options

  type Crid = string

  /** A grant id, the page pool's fixed id, or the id a retired pool generation is renamed to.
      The three never coincide: grant ids match `grant_` and sixteen characters. */
  datatype Owner = Guest(id: string) | Pool | RetiredPool(generation: nat)

  datatype Key = Key(page: string, owner: Owner)

  /** The digest's inputs; SHA-256 is taken to be injective on them. */
  datatype Connector = Connector(installation: string, page: string, owner: Owner, generation: nat)

  datatype Phase = Creating | Ready | Retiring | Revoked

  function Rank(p: Phase): nat {
    match p case Creating => 0 case Ready => 1 case Retiring => 2 case Revoked => 3
  }

  datatype Row = Row(connector: Connector, target: string, crid: Option<Crid>, phase: Phase,
                     created: int, recoveryDue: int, recoveryAttempts: nat)

  datatype Retirement = Retirement(crid: Crid, due: int, attempts: nat, qurl: string, managementOnly: bool)

  /** The database, the upstream service and history.  `published` is what upstream has ever
      created for a connector id, `gone` what it has deleted, `confirmed` the CRIDs for which
      some delete call returned, `abandoned` the connectors whose unpublished row a reset closed. */
  datatype State = State(
    rows: map<Key, Row>, retirements: map<Key, Retirement>, generations: map<string, nat>,
    published: map<Connector, Crid>, confirmed: set<Crid>, gone: set<Crid>, abandoned: set<Connector>)

  const EMPTY := State(map[], map[], map[], map[], {}, {}, {})

  function Generation(s: State, page: string): nat {
    if page in s.generations then s.generations[page] else 0
  }

  /** The stable connector id of a row about to be inserted. */
  function ConnectorFor(s: State, installation: string, key: Key): Connector {
    Connector(installation, key.page, key.owner, if key.owner.Pool? then Generation(s, key.page) else 0)
  }

  // ---------------------------------------------------------------- atomic steps

  datatype Reply = Returned | FailedApplied | FailedNotApplied

  datatype Step =
    | RotatePool(page: string)
    | Insert(key: Key, installation: string, target: string, now: int)
    | Publish(key: Key, crid: Crid)
    | CommitReady(key: Key)
    | MarkRetiring(key: Key, qurl: string, now: int)
    | Delete(key: Key, reply: Reply)
    | FinishRevoke(key: Key)
    | Reschedule(key: Key, due: int)
    | BackOff(key: Key, due: int)
    | ResetRow(key: Key, now: int)
    | ManagementOnly

  function RetirementFor(s: State, key: Key, crid: Crid, now: int): Retirement {
    if key in s.retirements then s.retirements[key] else Retirement(crid, now, 0, "", false)
  }

  predicate HasRow(s: State, key: Key, phase: Phase) {
    key in s.rows && s.rows[key].phase == phase
  }

  /** What the code has established when it takes a step. */
  predicate Allowed(s: State, step: Step) {
    match step
    case RotatePool(page) => HasRow(s, Key(page, Pool), Revoked)
    case Insert(key, _, _, _) => key !in s.rows && !key.owner.RetiredPool?
    case Publish(key, crid) =>
      && HasRow(s, key, Creating)
      && (s.rows[key].connector in s.published ==> s.published[s.rows[key].connector] == crid)
    case CommitReady(key) =>
      && HasRow(s, key, Creating) && s.rows[key].connector in s.published
      && (forall k :: k in s.rows ==> s.rows[k].crid != Some(s.published[s.rows[key].connector]))
    case MarkRetiring(key, _, _) => (HasRow(s, key, Ready) || HasRow(s, key, Retiring)) && s.rows[key].crid.Some?
    case Delete(key, _) => HasRow(s, key, Retiring) && s.rows[key].crid.Some?
    case FinishRevoke(key) =>
      HasRow(s, key, Retiring) && s.rows[key].crid.Some? && s.rows[key].crid.value in s.confirmed
    case Reschedule(key, _) => key in s.retirements
    case BackOff(key, _) => HasRow(s, key, Creating) || HasRow(s, key, Ready)
    case ResetRow(key, _) => key in s.rows && !s.rows[key].phase.Revoked?
    case ManagementOnly => true
  }

  function SetRow(s: State, key: Key, row: Row): State { s.(rows := s.rows[key := row]) }

  function Renamed<V>(m: map<Key, V>, from: Key, to: Key): map<Key, V> {
    if from in m then (m - {from})[to := m[from]] else m
  }

  /** The page pool's rows move to the current generation's retired id, and the generation is
      used up. */
  function RenamePool(s: State, page: string): State {
    var from, to := Key(page, Pool), Key(page, RetiredPool(Generation(s, page)));
    s.(rows := Renamed(s.rows, from, to), retirements := Renamed(s.retirements, from, to),
       generations := s.generations[page := Generation(s, page) + 1])
  }

  /** Where a reset moves a row to. */
  function ResetKey(s: State, key: Key): Key {
    if key.owner.Pool? then Key(key.page, RetiredPool(Generation(s, key.page))) else key
  }

  function MarkedRetiring(s: State, key: Key, qurl: string, now: int): State
    requires key in s.rows && s.rows[key].crid.Some?
  {
    var row := s.rows[key];
    var r := RetirementFor(s, key, row.crid.value, now);
    s.(rows := s.rows[key := row.(phase := Retiring)],
       retirements := s.retirements[key := if qurl == "" then r else r.(qurl := qurl)])
  }

  function MarkedAbandoned(s: State, key: Key): State
    requires key in s.rows
  {
    var row := s.rows[key];
    s.(rows := s.rows[key := row.(phase := Revoked)], abandoned := s.abandoned + {row.connector})
  }

  function ResetOne(s: State, key: Key, now: int): State
    requires key in s.rows
  {
    var t, to := if key.owner.Pool? then RenamePool(s, key.page) else s, ResetKey(s, key);
    if t.rows[to].crid.Some? then MarkedRetiring(t, to, "", now) else MarkedAbandoned(t, to)
  }

  function Apply(s: State, step: Step): State
    requires Allowed(s, step)
  {
    match step
    case RotatePool(page) => RenamePool(s, page)
    case Insert(key, installation, target, now) =>
      SetRow(s, key, Row(ConnectorFor(s, installation, key), target, None, Creating, now, 0, 0))
    case Publish(key, crid) => s.(published := s.published[s.rows[key].connector := crid])
    case CommitReady(key) =>
      var row := s.rows[key];
      SetRow(s, key, row.(crid := Some(s.published[row.connector]), phase := Ready))
    case MarkRetiring(key, qurl, now) => MarkedRetiring(s, key, qurl, now)
    case Delete(key, reply) =>
      var crid := s.rows[key].crid.value;
      s.(confirmed := if reply.Returned? then s.confirmed + {crid} else s.confirmed,
         gone := if reply.FailedNotApplied? then s.gone else s.gone + {crid})
    case FinishRevoke(key) =>
      SetRow(s, key, s.rows[key].(phase := Revoked)).(retirements := s.retirements - {key})
    case Reschedule(key, due) =>
      var r := s.retirements[key];
      s.(retirements := s.retirements[key := r.(due := due, attempts := r.attempts + 1)])
    case BackOff(key, due) =>
      var row := s.rows[key];
      SetRow(s, key, row.(recoveryDue := due, recoveryAttempts := row.recoveryAttempts + 1))
    case ResetRow(key, now) => ResetOne(s, key, now)
    case ManagementOnly =>
      s.(retirements := map k | k in s.retirements :: s.retirements[k].(managementOnly := true))
  }

  // ---------------------------------------------------------------- invariant

  /** Each key has its own connector id: live pools carry the current generation, retired ones an
      earlier one. */
  ghost predicate KeyOk(s: State, key: Key) {
    key in s.rows ==>
      var c := s.rows[key].connector;
      && c.page == key.page
      && match key.owner
         case Guest(_) => c.owner == key.owner
         case Pool => c.owner == Pool && c.generation == Generation(s, key.page)
         case RetiredPool(g) => c.owner == Pool && c.generation == g < Generation(s, key.page)
  }

  ghost predicate RowOk(s: State, key: Key) {
    key in s.rows ==>
      var row := s.rows[key];
      && (row.crid.Some? ==> row.connector in s.published && s.published[row.connector] == row.crid.value)
      && match row.phase
         case Creating => row.crid.None?
         case Ready => row.crid.Some?
         case Retiring => row.crid.Some?
         case Revoked => if row.crid.Some? then row.crid.value in s.confirmed else row.connector in s.abandoned
  }

  ghost predicate RetirementsMatch(s: State) {
    && (forall k :: k in s.retirements <==> HasRow(s, k, Retiring))
    && (forall k :: k in s.retirements && k in s.rows ==> s.rows[k].crid == Some(s.retirements[k].crid))
  }

  /** A row that records what was published under a connector id. */
  ghost predicate Owned(s: State, c: Connector) {
    exists k :: k in s.rows && s.rows[k].connector == c
  }

  ghost predicate RowsOk(s: State) { forall k :: KeyOk(s, k) && RowOk(s, k) }

  ghost predicate AllOwned(s: State) { forall c :: c in s.published ==> Owned(s, c) }

  ghost predicate CridsUnique(s: State) {
    forall k, k' :: k in s.rows && k' in s.rows && s.rows[k].crid.Some? && s.rows[k].crid == s.rows[k'].crid ==> k == k'
  }

  ghost predicate Inv(s: State) {
    RowsOk(s) && RetirementsMatch(s) && AllOwned(s) && CridsUnique(s) && s.confirmed <= s.gone
  }

  /** Two rows never share a connector id, so neither an insert nor a rename can collide. */
  lemma ConnectorsAreUnique(s: State, k: Key, k': Key)
    requires Inv(s) && k in s.rows && k' in s.rows && s.rows[k].connector == s.rows[k'].connector
    ensures k == k'
  {
    assert KeyOk(s, k) && KeyOk(s, k');
  }

  // ---------------------------------------------------------------- every step

  /** The key under which a row is found after a step. */
  function Moved(s: State, step: Step, k: Key): Key {
    match step
    case RotatePool(page) => if k == Key(page, Pool) then ResetKey(s, k) else k
    case ResetRow(key, _) => if k == key then ResetKey(s, k) else k
    case _ => k
  }

  /** A later version of the same row: same connector, no earlier phase, and a CRID once bound
      stays bound. */
  predicate Later(row: Row, row': Row) {
    && row'.connector == row.connector
    && Rank(row.phase) <= Rank(row'.phase)
    && (row.crid.Some? ==> row'.crid == row.crid)
  }

  lemma RenameIsFree(s: State, page: string)
    requires Inv(s)
    ensures Key(page, RetiredPool(Generation(s, page))) !in s.rows
    ensures Key(page, RetiredPool(Generation(s, page))) !in s.retirements
  {
    assert KeyOk(s, Key(page, RetiredPool(Generation(s, page))));
  }

  lemma {:induction false} RenameRows(s: State, page: string)
    requires Inv(s)
    ensures var t, from, to := RenamePool(s, page), Key(page, Pool), Key(page, RetiredPool(Generation(s, page)));
            && (forall k :: k in t.rows <==> (k in s.rows && k != from) || (k == to && from in s.rows))
            && (forall k :: k in t.rows && k != to ==> t.rows[k] == s.rows[k])
            && (from in s.rows ==> t.rows[to] == s.rows[from])
            && (forall k :: k in t.retirements <==> (k in s.retirements && k != from) || (k == to && from in s.retirements))
            && (forall k :: k in t.retirements && k != to ==> t.retirements[k] == s.retirements[k])
            && (from in s.retirements ==> t.retirements[to] == s.retirements[from])
            && to !in s.rows && to !in s.retirements
            && (forall p :: Generation(t, p) == if p == page then Generation(s, p) + 1 else Generation(s, p))
  {
    RenameIsFree(s, page);
  }

  lemma OwnedBy(s: State, k: Key)
    requires k in s.rows
    ensures Owned(s, s.rows[k].connector)
  {
  }

  lemma RenameRowsOk(s: State, page: string)
    requires Inv(s)
    ensures RowsOk(RenamePool(s, page))
  {
    RenameRows(s, page);
    var t, from, to := RenamePool(s, page), Key(page, Pool), Key(page, RetiredPool(Generation(s, page)));
    forall k
      ensures KeyOk(t, k) && RowOk(t, k)
    {
      assert KeyOk(s, k) && RowOk(s, k) && KeyOk(s, from) && RowOk(s, from);
      if k in t.rows && k != to { assert t.rows[k] == s.rows[k]; }
    }
  }

  lemma RenameOwned(s: State, page: string)
    requires Inv(s)
    ensures AllOwned(RenamePool(s, page)) && CridsUnique(RenamePool(s, page))
  {
    RenameRows(s, page);
    var t, from, to := RenamePool(s, page), Key(page, Pool), Key(page, RetiredPool(Generation(s, page)));
    forall c | c in t.published
      ensures Owned(t, c)
    {
      var k :| k in s.rows && s.rows[k].connector == c;
      OwnedBy(t, if k == from then to else k);
    }
  }

  lemma RenameRetirements(s: State, page: string)
    requires Inv(s)
    ensures RetirementsMatch(RenamePool(s, page))
  {
    RenameRows(s, page);
  }

  lemma RenameKeeps(s: State, page: string)
    requires Inv(s)
    ensures Inv(RenamePool(s, page))
  {
    RenameRowsOk(s, page);
    RenameOwned(s, page);
    RenameRetirements(s, page);
  }

  /** A row written under `key` fits the rest of the store. */
  ghost predicate Fits(s: State, key: Key, row: Row) {
    && (if key in s.rows then row.connector == s.rows[key].connector
        else KeyOk(s.(rows := s.rows[key := row]), key))
    && RowOk(s.(rows := s.rows[key := row]), key)
    && (row.crid.None? || (forall k :: k in s.rows && k != key ==> s.rows[k].crid != row.crid))
  }

  /** Only `key`'s retirement may change, and it exists exactly while the row is retiring. */
  ghost predicate RetirementFits(s: State, key: Key, row: Row, retirements: map<Key, Retirement>) {
    && retirements - {key} == s.retirements - {key}
    && (key in retirements <==> row.phase.Retiring?)
    && (key in retirements ==> row.crid == Some(retirements[key].crid))
  }

  lemma PutRowsOk(s: State, key: Key, row: Row)
    requires Inv(s) && Fits(s, key, row)
    ensures RowsOk(SetRow(s, key, row)) && AllOwned(SetRow(s, key, row)) && CridsUnique(SetRow(s, key, row))
  {
    var t := SetRow(s, key, row);
    forall k
      ensures KeyOk(t, k) && RowOk(t, k)
    {
      assert KeyOk(s, k) && RowOk(s, k);
    }
    forall c | c in t.published
      ensures Owned(t, c)
    {
      var k :| k in s.rows && s.rows[k].connector == c;
      OwnedBy(t, k);
    }
  }

  lemma OtherRetirements(s: State, key: Key, retirements: map<Key, Retirement>, k: Key)
    requires retirements - {key} == s.retirements - {key} && k != key
    ensures (k in retirements <==> k in s.retirements) && (k in retirements ==> retirements[k] == s.retirements[k])
  {
    assert k in retirements - {key} <==> k in s.retirements - {key};
    if k in retirements { assert (retirements - {key})[k] == (s.retirements - {key})[k]; }
  }

  lemma PutRetirements(s: State, key: Key, row: Row, retirements: map<Key, Retirement>)
    requires Inv(s) && RetirementFits(s, key, row, retirements)
    ensures RetirementsMatch(SetRow(s, key, row).(retirements := retirements))
  {
    var t := SetRow(s, key, row).(retirements := retirements);
    forall k
      ensures k in t.retirements <==> HasRow(t, k, Retiring)
      ensures k in t.retirements && k in t.rows ==> t.rows[k].crid == Some(t.retirements[k].crid)
    {
      if k != key {
        OtherRetirements(s, key, retirements, k);
      }
    }
  }

  lemma PutKeeps(s: State, key: Key, row: Row, retirements: map<Key, Retirement>)
    requires Inv(s) && Fits(s, key, row) && RetirementFits(s, key, row, retirements)
    ensures Inv(SetRow(s, key, row).(retirements := retirements))
  {
    PutRowsOk(s, key, row);
    PutRetirements(s, key, row, retirements);
    SameRows(SetRow(s, key, row), SetRow(s, key, row).(retirements := retirements));
  }

  lemma SameRows(s: State, t: State)
    requires t.rows == s.rows && t.generations == s.generations && t.published == s.published
    requires t.confirmed == s.confirmed && t.abandoned == s.abandoned
    requires RowsOk(s) && AllOwned(s) && CridsUnique(s)
    ensures RowsOk(t) && AllOwned(t) && CridsUnique(t)
  {
    forall k
      ensures KeyOk(t, k) && RowOk(t, k)
    {
      assert KeyOk(s, k) && RowOk(s, k);
    }
    forall c | c in t.published
      ensures Owned(t, c)
    {
      assert Owned(s, c);
      var k :| k in s.rows && s.rows[k].connector == c;
      OwnedBy(t, k);
    }
  }

  /** Upstream effects only ever add facts. */
  lemma EffectsKeep(s: State, t: State)
    requires Inv(s) && t.rows == s.rows && t.retirements == s.retirements && t.generations == s.generations
    requires forall c :: c in s.published ==> c in t.published && t.published[c] == s.published[c]
    requires forall c :: c in t.published && c !in s.published ==> Owned(s, c)
    requires s.confirmed <= t.confirmed <= t.gone && s.abandoned <= t.abandoned
    ensures Inv(t)
  {
    forall k
      ensures KeyOk(t, k) && RowOk(t, k)
    {
      assert KeyOk(s, k) && RowOk(s, k);
    }
    forall c | c in t.published
      ensures Owned(t, c)
    {
      assert Owned(s, c);
      var k :| k in s.rows && s.rows[k].connector == c;
      assert t.rows[k].connector == c;
    }
  }

  // ---------------------------------------------------------------- every step

  lemma MarkedFits(s: State, key: Key, qurl: string, now: int)
    requires Inv(s) && key in s.rows && s.rows[key].crid.Some? && !s.rows[key].phase.Revoked?
    ensures var t := MarkedRetiring(s, key, qurl, now);
            Fits(s, key, t.rows[key]) && RetirementFits(s, key, t.rows[key], t.retirements)
  {
    assert RowOk(s, key);
  }

  lemma MarkedRetiringKeeps(s: State, key: Key, qurl: string, now: int)
    requires Inv(s) && key in s.rows && s.rows[key].crid.Some? && !s.rows[key].phase.Revoked?
    ensures Inv(MarkedRetiring(s, key, qurl, now))
  {
    MarkedFits(s, key, qurl, now);
    var t := MarkedRetiring(s, key, qurl, now);
    PutKeeps(s, key, t.rows[key], t.retirements);
  }

  lemma MarkedAbandonedKeeps(s: State, key: Key)
    requires Inv(s) && key in s.rows && s.rows[key].crid.None?
    ensures Inv(MarkedAbandoned(s, key))
  {
    assert RowOk(s, key);
    var t := s.(abandoned := s.abandoned + {s.rows[key].connector});
    EffectsKeep(s, t);
    PutKeeps(t, key, s.rows[key].(phase := Revoked), s.retirements);
  }

  lemma ResetOneKeeps(s: State, key: Key, now: int)
    requires Inv(s) && key in s.rows && !s.rows[key].phase.Revoked?
    ensures Inv(ResetOne(s, key, now))
  {
    var t, to := if key.owner.Pool? then RenamePool(s, key.page) else s, ResetKey(s, key);
    if key.owner.Pool? {
      RenameKeeps(s, key.page);
      RenameRows(s, key.page);
    }
    assert t.rows[to] == s.rows[key];
    if t.rows[to].crid.Some? {
      MarkedRetiringKeeps(t, to, "", now);
    } else {
      MarkedAbandonedKeeps(t, to);
    }
  }

  lemma RetirementDetailsKeep(s: State, retirements: map<Key, Retirement>)
    requires Inv(s) && retirements.Keys == s.retirements.Keys
    requires forall k :: k in retirements ==> retirements[k].crid == s.retirements[k].crid
    ensures Inv(s.(retirements := retirements))
  {
    SameRows(s, s.(retirements := retirements));
    assert forall k :: k in retirements <==> k in s.retirements;
  }

  lemma InsertFits(s: State, step: Step)
    requires Inv(s) && Allowed(s, step) && step.Insert?
    ensures Fits(s, step.key, Apply(s, step).rows[step.key])
    ensures RetirementFits(s, step.key, Apply(s, step).rows[step.key], Apply(s, step).retirements)
  {
    assert KeyOk(s, step.key) && RowOk(s, step.key);
  }

  lemma CommitFits(s: State, step: Step)
    requires Inv(s) && Allowed(s, step) && step.CommitReady?
    ensures Fits(s, step.key, Apply(s, step).rows[step.key])
    ensures RetirementFits(s, step.key, Apply(s, step).rows[step.key], Apply(s, step).retirements)
  {
    assert KeyOk(s, step.key) && RowOk(s, step.key);
  }

  lemma FinishFits(s: State, step: Step)
    requires Inv(s) && Allowed(s, step) && step.FinishRevoke?
    ensures Fits(s, step.key, Apply(s, step).rows[step.key])
    ensures RetirementFits(s, step.key, Apply(s, step).rows[step.key], Apply(s, step).retirements)
  {
    assert KeyOk(s, step.key) && RowOk(s, step.key);
  }

  lemma BackOffFits(s: State, step: Step)
    requires Inv(s) && Allowed(s, step) && step.BackOff?
    ensures Fits(s, step.key, Apply(s, step).rows[step.key])
    ensures RetirementFits(s, step.key, Apply(s, step).rows[step.key], Apply(s, step).retirements)
  {
    assert KeyOk(s, step.key) && RowOk(s, step.key);
  }

  /** Steps that write one row and leave its retirement as its phase requires. */
  lemma RowStepKeeps(s: State, step: Step)
    requires Inv(s) && Allowed(s, step)
    requires step.Insert? || step.CommitReady? || step.FinishRevoke? || step.BackOff?
    ensures Inv(Apply(s, step))
  {
    match step {
      case Insert(_, _, _, _) => InsertFits(s, step);
      case CommitReady(_) => CommitFits(s, step);
      case FinishRevoke(_) => FinishFits(s, step);
      case BackOff(_, _) => BackOffFits(s, step);
    }
    var t := Apply(s, step);
    PutKeeps(s, step.key, t.rows[step.key], t.retirements);
  }

  lemma EffectStepKeeps(s: State, step: Step)
    requires Inv(s) && Allowed(s, step) && (step.Publish? || step.Delete?)
    ensures Inv(Apply(s, step))
  {
    OwnedBy(s, step.key);
    EffectsKeep(s, Apply(s, step));
  }

  lemma DetailStepKeeps(s: State, step: Step)
    requires Inv(s) && Allowed(s, step) && (step.Reschedule? || step.ManagementOnly?)
    ensures Inv(Apply(s, step))
  {
    RetirementDetailsKeep(s, Apply(s, step).retirements);
  }

  /** Every transaction and every upstream outcome keeps the invariant. */
  lemma StepKeepsInv(s: State, step: Step)
    requires Inv(s) && Allowed(s, step)
    ensures Inv(Apply(s, step))
  {
    match step
    case RotatePool(page) => RenameKeeps(s, page);
    case MarkRetiring(key, qurl, now) => MarkedRetiringKeeps(s, key, qurl, now);
    case ResetRow(key, now) => ResetOneKeeps(s, key, now);
    case Publish(_, _) => EffectStepKeeps(s, step);
    case Delete(_, _) => EffectStepKeeps(s, step);
    case Reschedule(_, _) => DetailStepKeeps(s, step);
    case ManagementOnly => DetailStepKeeps(s, step);
    case _ => RowStepKeeps(s, step);
  }

  lemma ResetRowKept(s: State, key: Key, now: int, k: Key)
    requires Inv(s) && key in s.rows && !s.rows[key].phase.Revoked? && k in s.rows
    ensures var t, m := ResetOne(s, key, now), if k == key then ResetKey(s, key) else k;
            m in t.rows && Later(s.rows[k], t.rows[m])
  {
    if key.owner.Pool? {
      RotateKept(s, key.page, k);
      RotateKept(s, key.page, key);
      RenameIsFree(s, key.page);
    }
  }

  lemma RotateKept(s: State, page: string, k: Key)
    requires Inv(s) && k in s.rows
    ensures var t, m := RenamePool(s, page), if k == Key(page, Pool) then ResetKey(s, k) else k;
            m in t.rows && t.rows[m] == s.rows[k]
  {
    RenameRows(s, page);
  }

  lemma CommitKept(s: State, step: Step, k: Key)
    requires Inv(s) && Allowed(s, step) && step.CommitReady? && k in s.rows
    ensures k in Apply(s, step).rows && Later(s.rows[k], Apply(s, step).rows[k])
  {
    assert RowOk(s, k);
  }

  /** Steps that neither rename nor bind. */
  lemma OtherKept(s: State, step: Step, k: Key)
    requires Inv(s) && Allowed(s, step) && k in s.rows
    requires !step.RotatePool? && !step.ResetRow? && !step.CommitReady?
    ensures k in Apply(s, step).rows && Later(s.rows[k], Apply(s, step).rows[k])
  {
  }

  lemma RowKept(s: State, step: Step, k: Key)
    requires Inv(s) && Allowed(s, step) && k in s.rows
    ensures Moved(s, step, k) in Apply(s, step).rows && Later(s.rows[k], Apply(s, step).rows[Moved(s, step, k)])
  {
    match step
    case RotatePool(page) => RotateKept(s, page, k);
    case ResetRow(key, now) => ResetRowKept(s, key, now, k);
    case CommitReady(_) => CommitKept(s, step, k);
    case _ => OtherKept(s, step, k);
  }

  // ---------------------------------------------------------------- all runs

  predicate Run(s: State, steps: seq<Step>)
    decreases |steps|
  {
    steps == [] || (Allowed(s, steps[0]) && Run(Apply(s, steps[0]), steps[1..]))
  }

  function After(s: State, steps: seq<Step>): State
    requires Run(s, steps)
    decreases |steps|
  {
    if steps == [] then s else After(Apply(s, steps[0]), steps[1..])
  }

  lemma {:induction false} RunAppend(s: State, steps: seq<Step>, step: Step)
    requires Run(s, steps) && Allowed(After(s, steps), step)
    ensures Run(s, steps + [step]) && After(s, steps + [step]) == Apply(After(s, steps), step)
    decreases |steps|
  {
    if steps == [] {
      assert steps + [step] == [step] && [step][1..] == [];
    } else {
      RunAppend(Apply(s, steps[0]), steps[1..], step);
      assert (steps + [step])[1..] == steps[1..] + [step];
    }
  }

  /** `steps` is a recorded run that leads from the empty store to `s`.  (The quantifier keeps the
      recursive definitions folded where only the recorded run itself matters.) */
  ghost predicate Recorded(steps: seq<Step>, s: State) {
    forall start :: start == EMPTY ==> Run(start, steps) && After(start, steps) == s
  }

  lemma RecordedAppend(steps: seq<Step>, s: State, step: Step)
    requires Recorded(steps, s) && Allowed(s, step)
    ensures Recorded(steps + [step], Apply(s, step))
  {
    assert Run(EMPTY, steps);
    RunAppend(EMPTY, steps, step);
  }

  lemma {:induction false} RunKeepsInv(s: State, steps: seq<Step>)
    requires Inv(s) && Run(s, steps)
    ensures Inv(After(s, steps))
    decreases |steps|
  {
    if steps != [] {
      StepKeepsInv(s, steps[0]);
      RunKeepsInv(Apply(s, steps[0]), steps[1..]);
    }
  }

  lemma EmptyOk()
    ensures Inv(EMPTY)
  {
  }

  /** Over any run a row is never forgotten: it is found again (under `k'`) with the same
      connector id, a phase no earlier than before and the CRID it was once bound to. */
  lemma {:induction false} PhasesAreMonotone(s: State, steps: seq<Step>, k: Key) returns (k': Key)
    requires Inv(s) && Run(s, steps) && k in s.rows
    ensures k' in After(s, steps).rows && Later(s.rows[k], After(s, steps).rows[k'])
    decreases |steps|
  {
    if steps == [] {
      k' := k;
    } else {
      RowKept(s, steps[0], k);
      StepKeepsInv(s, steps[0]);
      k' := PhasesAreMonotone(Apply(s, steps[0]), steps[1..], Moved(s, steps[0], k));
    }
  }

  /** Over any run a connector id is bound to at most one CRID, even across renames. */
  lemma ConnectorBindsOneCrid(s: State, steps: seq<Step>, k: Key, k': Key)
    requires Inv(s) && Run(s, steps) && k in s.rows && k' in After(s, steps).rows
    requires s.rows[k].connector == After(s, steps).rows[k'].connector && s.rows[k].crid.Some?
    ensures After(s, steps).rows[k'].crid == s.rows[k].crid
  {
    var m := PhasesAreMonotone(s, steps, k);
    RunKeepsInv(s, steps);
    ConnectorsAreUnique(After(s, steps), m, k');
  }

  /** Every resource that still exists upstream, even one whose publish reply was lost, is owned
      by a row that has not been closed, unless a reset closed it before its CRID was known. */
  lemma WriteAheadOwnership(steps: seq<Step>, c: Connector)
    requires Run(EMPTY, steps)
    requires c in After(EMPTY, steps).published && After(EMPTY, steps).published[c] !in After(EMPTY, steps).gone
    ensures var s := After(EMPTY, steps);
            exists k :: k in s.rows && s.rows[k].connector == c && (!s.rows[k].phase.Revoked? || c in s.abandoned)
  {
    EmptyOk();
    RunKeepsInv(EMPTY, steps);
    var s := After(EMPTY, steps);
    assert Owned(s, c);
    var k :| k in s.rows && s.rows[k].connector == c;
    assert RowOk(s, k);
  }

  /** A row with a CRID is closed only after a delete call for that CRID returned; one without
      is closed only by a reset; and retirement work exists exactly for the retiring rows. */
  lemma RevocationIsConfirmed(steps: seq<Step>, k: Key)
    requires Run(EMPTY, steps)
    ensures var s := After(EMPTY, steps);
            && (HasRow(s, k, Revoked) && s.rows[k].crid.Some? ==> s.rows[k].crid.value in s.confirmed)
            && (HasRow(s, k, Revoked) && s.rows[k].crid.None? ==> s.rows[k].connector in s.abandoned)
            && (HasRow(s, k, Creating) ==> s.rows[k].crid.None?)
            && (HasRow(s, k, Ready) || HasRow(s, k, Retiring) ==> s.rows[k].crid.Some?)
            && (k in s.retirements <==> HasRow(s, k, Retiring))
  {
    EmptyOk();
    RunKeepsInv(EMPTY, steps);
    var s := After(EMPTY, steps);
    assert RowOk(s, k);
  }

  // ---------------------------------------------------------------- nothing is deleted early

  /** Some row that is being retired, or has been, names the CRID. */
  ghost predicate Condemned(s: State, crid: Crid) {
    exists k :: k in s.rows && s.rows[k].crid == Some(crid) && Rank(s.rows[k].phase) >= 2
  }

  ghost predicate GoneCondemned(s: State) {
    forall crid :: crid in s.gone ==> Condemned(s, crid)
  }

  lemma GoneStep(s: State, step: Step)
    requires Inv(s) && GoneCondemned(s) && Allowed(s, step)
    ensures GoneCondemned(Apply(s, step))
  {
    var s' := Apply(s, step);
    forall crid | crid in s'.gone
      ensures Condemned(s', crid)
    {
      if crid in s.gone {
        assert Condemned(s, crid);
        var k :| k in s.rows && s.rows[k].crid == Some(crid) && Rank(s.rows[k].phase) >= 2;
        RowKept(s, step, k);
        assert s'.rows[Moved(s, step, k)].crid == Some(crid);
      } else {
        assert s'.rows[step.key].crid == Some(crid);
      }
    }
  }

  lemma {:induction false} GoneRun(s: State, steps: seq<Step>)
    requires Inv(s) && GoneCondemned(s) && Run(s, steps)
    ensures GoneCondemned(After(s, steps))
    decreases |steps|
  {
    if steps != [] {
      GoneStep(s, steps[0]);
      StepKeepsInv(s, steps[0]);
      GoneRun(Apply(s, steps[0]), steps[1..]);
    }
  }

  /** No run deletes a resource upstream while its row still offers it to a guest. */
  lemma ReadyResourceExists(steps: seq<Step>, k: Key)
    requires Run(EMPTY, steps) && HasRow(After(EMPTY, steps), k, Ready)
    ensures var s := After(EMPTY, steps);
            && s.rows[k].crid.Some? && s.rows[k].crid.value !in s.gone
            && s.rows[k].connector in s.published && s.published[s.rows[k].connector] == s.rows[k].crid.value
  {
    EmptyOk();
    RunKeepsInv(EMPTY, steps);
    GoneRun(EMPTY, steps);
    var s := After(EMPTY, steps);
    assert RowOk(s, k);
    assert !Condemned(s, s.rows[k].crid.value);
  }
}
