/** What the guest broker's requests, the administrator and the clock do, as one history, and what
    it means for a dispatched action to be explained by that history. */
module GuestAuthority {
  import opened VerificationTables
  import opened Options

  /** A grant as the administrator keeps it; `secret` stands for the invitation's digest. */
  datatype GuestGrant = GuestGrant(id: string, secret: Secret, expiry: int, verificationRequired: bool,
                                   oneTime: bool, bootstrapFlow: bool)

  datatype Action = Action(id: string, service: string, title: string)

  datatype Resource = Resource(id: string, entity: string, domain: string, name: string, actions: seq<Action>)

  datatype Proximity = Proximity(enabled: bool, radius: int)

  datatype Policy = Policy(resources: seq<Resource>, proximity: Proximity)

  /** Whose request it is: a session, and the page and grant it claims. */
  datatype Guest = Guest(token: Token, page: string, grant: string)

  datatype World = World(tables: Tables, grants: map<string, seq<GuestGrant>>, policies: map<string, Policy>, now: int)

  const START := World(EMPTY, map[], map[], 0)

  datatype Act =
    | Tick(seconds: nat)
    | EditGrants(page: string, grants: Option<seq<GuestGrant>>)
    | EditPolicy(page: string, policy: Option<Policy>)
    | Store(tx: Tx)
    | FoundNear(guest: Guest, proximity: Proximity)
    | Validated(guest: Guest, resource: Resource, action: Action, supplied: string, data: string)
    | Dispatch(guest: Guest, resource: Resource, action: Action, supplied: string, data: string)

  predicate Can(w: World, act: Act) { act.Store? && Timed(act.tx) ==> act.tx.now == w.now }

  function Perform(w: World, act: Act): World {
    match act
    case Tick(seconds) => w.(now := w.now + seconds)
    case EditGrants(page, grants) => w.(grants := if grants.Some? then w.grants[page := grants.value] else w.grants - {page})
    case EditPolicy(page, policy) => w.(policies := if policy.Some? then w.policies[page := policy.value] else w.policies - {page})
    case Store(tx) => w.(tables := VerificationTables.Apply(w.tables, tx))
    case _ => w
  }

  // ---------------------------------------------------------------- lookups

  /** The first grant of that id that was issued for the bootstrap flow. */
  function FindGrant(grants: seq<GuestGrant>, id: string): (g: Option<GuestGrant>)
    ensures g.Some? ==> g.value in grants && g.value.id == id && g.value.bootstrapFlow
    ensures g.None? ==> forall x :: x in grants ==> !(x.id == id && x.bootstrapFlow)
  {
    if grants == [] then None
    else if grants[0].id == id && grants[0].bootstrapFlow then Some(grants[0])
    else FindGrant(grants[1..], id)
  }

  /** The grant that is current, if it has not expired. */
  function CurrentGrant(w: World, page: string, id: string): (g: Option<GuestGrant>)
    ensures g.Some? ==> g.value.expiry > w.now && g.value.id == id
  {
    if page !in w.grants then None
    else
      var g := FindGrant(w.grants[page], id);
      if g.Some? && g.value.expiry > w.now then g else None
  }

  function FindResource(resources: seq<Resource>, id: string): (r: Option<Resource>)
    ensures r.Some? ==> r.value in resources && r.value.id == id
    ensures r.None? ==> forall x :: x in resources ==> x.id != id
  {
    if resources == [] then None
    else if resources[0].id == id then Some(resources[0]) else FindResource(resources[1..], id)
  }

  function FindAction(actions: seq<Action>, id: string): (a: Option<Action>)
    ensures a.Some? ==> a.value in actions && a.value.id == id
    ensures a.None? ==> forall x :: x in actions ==> x.id != id
  {
    if actions == [] then None
    else if actions[0].id == id then Some(actions[0]) else FindAction(actions[1..], id)
  }

  /** `curated` is the fixed table of services offered for a domain. */
  function ResourceAction(curated: (string, string) -> bool, p: Policy, resource: string, action: string): Option<(Resource, Action)> {
    var r := FindResource(p.resources, resource);
    if r.None? then None
    else
      var a := FindAction(r.value.actions, action);
      if a.None? || !curated(r.value.domain, a.value.service) then None
      else if r.value.domain == "sensor" || a.value.service == "view" then None
      else Some((r.value, a.value))
  }

  // ---------------------------------------------------------------- what a policy offers

  /** Of the resources of that id, the first. */
  ghost predicate FirstResource(resources: seq<Resource>, r: Resource) {
    exists i :: 0 <= i < |resources| && resources[i] == r && forall j :: 0 <= j < i ==> resources[j].id != r.id
  }

  /** Of the actions of that id, the first. */
  ghost predicate FirstAction(actions: seq<Action>, a: Action) {
    exists i :: 0 <= i < |actions| && actions[i] == a && forall j :: 0 <= j < i ==> actions[j].id != a.id
  }

  /** Of the bootstrap grants of that id, the first. */
  ghost predicate FirstGrant(grants: seq<GuestGrant>, g: GuestGrant) {
    g.bootstrapFlow
    && exists i :: 0 <= i < |grants| && grants[i] == g && forall j :: 0 <= j < i ==> !(grants[j].id == g.id && grants[j].bootstrapFlow)
  }

  /** A guest may use the action: the page publishes it on that resource, the service is one of those
      curated for the domain, and it is not read-only. */
  ghost predicate Offers(curated: (string, string) -> bool, p: Policy, r: Resource, a: Action) {
    && FirstResource(p.resources, r) && FirstAction(r.actions, a)
    && curated(r.domain, a.service) && r.domain != "sensor" && a.service != "view"
  }

  lemma {:induction false} FindsFirstResource(resources: seq<Resource>, i: nat)
    requires i < |resources| && forall j :: 0 <= j < i ==> resources[j].id != resources[i].id
    ensures FindResource(resources, resources[i].id) == Some(resources[i])
    decreases i
  {
    if i > 0 {
      assert resources[1..][i - 1] == resources[i];
      FindsFirstResource(resources[1..], i - 1);
    }
  }

  lemma {:induction false} FindsFirstAction(actions: seq<Action>, i: nat)
    requires i < |actions| && forall j :: 0 <= j < i ==> actions[j].id != actions[i].id
    ensures FindAction(actions, actions[i].id) == Some(actions[i])
    decreases i
  {
    if i > 0 {
      assert actions[1..][i - 1] == actions[i];
      FindsFirstAction(actions[1..], i - 1);
    }
  }

  lemma {:induction false} FindsFirstGrant(grants: seq<GuestGrant>, i: nat)
    requires i < |grants| && grants[i].bootstrapFlow
    requires forall j :: 0 <= j < i ==> !(grants[j].id == grants[i].id && grants[j].bootstrapFlow)
    ensures FindGrant(grants, grants[i].id) == Some(grants[i])
    decreases i
  {
    if i > 0 {
      assert grants[1..][i - 1] == grants[i];
      FindsFirstGrant(grants[1..], i - 1);
    }
  }

  lemma {:induction false} FirstResourceThere(resources: seq<Resource>, id: string) returns (i: nat)
    requires FindResource(resources, id).Some?
    ensures i < |resources| && resources[i].id == id && forall j :: 0 <= j < i ==> resources[j].id != id
    decreases |resources|
  {
    i := 0;
    if resources[0].id != id {
      var k := FirstResourceThere(resources[1..], id);
      i := k + 1;
      forall j | 0 <= j < i
        ensures resources[j].id != id
      {
        if j > 0 { assert resources[1..][j - 1] == resources[j]; }
      }
    }
  }

  lemma {:induction false} FirstActionThere(actions: seq<Action>, id: string) returns (i: nat)
    requires FindAction(actions, id).Some?
    ensures i < |actions| && actions[i].id == id && forall j :: 0 <= j < i ==> actions[j].id != id
    decreases |actions|
  {
    i := 0;
    if actions[0].id != id {
      var k := FirstActionThere(actions[1..], id);
      i := k + 1;
      forall j | 0 <= j < i
        ensures actions[j].id != id
      {
        if j > 0 { assert actions[1..][j - 1] == actions[j]; }
      }
    }
  }

  lemma {:induction false} FirstGrantThere(grants: seq<GuestGrant>, id: string) returns (i: nat)
    requires FindGrant(grants, id).Some?
    ensures i < |grants| && grants[i].id == id && grants[i].bootstrapFlow
    ensures forall j :: 0 <= j < i ==> !(grants[j].id == id && grants[j].bootstrapFlow)
    decreases |grants|
  {
    i := 0;
    if !(grants[0].id == id && grants[0].bootstrapFlow) {
      var k := FirstGrantThere(grants[1..], id);
      i := k + 1;
      forall j | 0 <= j < i
        ensures !(grants[j].id == id && grants[j].bootstrapFlow)
      {
        if j > 0 { assert grants[1..][j - 1] == grants[j]; }
      }
    }
  }

  lemma ResourceExactly(resources: seq<Resource>, id: string, r: Resource)
    ensures FindResource(resources, id) == Some(r) <==> r.id == id && FirstResource(resources, r)
  {
    if r.id == id && FirstResource(resources, r) {
      var i :| 0 <= i < |resources| && resources[i] == r && forall j :: 0 <= j < i ==> resources[j].id != r.id;
      FindsFirstResource(resources, i);
    }
    if FindResource(resources, id) == Some(r) {
      var i := FirstResourceThere(resources, id);
      FindsFirstResource(resources, i);
    }
  }

  lemma ActionOfExactly(actions: seq<Action>, id: string, a: Action)
    ensures FindAction(actions, id) == Some(a) <==> a.id == id && FirstAction(actions, a)
  {
    if a.id == id && FirstAction(actions, a) {
      var i :| 0 <= i < |actions| && actions[i] == a && forall j :: 0 <= j < i ==> actions[j].id != a.id;
      FindsFirstAction(actions, i);
    }
    if FindAction(actions, id) == Some(a) {
      var i := FirstActionThere(actions, id);
      FindsFirstAction(actions, i);
    }
  }

  lemma GrantExactly(grants: seq<GuestGrant>, id: string, g: GuestGrant)
    ensures FindGrant(grants, id) == Some(g) <==> g.id == id && FirstGrant(grants, g)
  {
    if g.id == id && FirstGrant(grants, g) {
      var i :| 0 <= i < |grants| && grants[i] == g && forall j :: 0 <= j < i ==> !(grants[j].id == g.id && grants[j].bootstrapFlow);
      FindsFirstGrant(grants, i);
    }
    if FindGrant(grants, id) == Some(g) {
      var i := FirstGrantThere(grants, id);
      FindsFirstGrant(grants, i);
    }
  }

  /** What a request for an action is resolved to: exactly what the policy offers under these ids. */
  lemma ActionExactly(curated: (string, string) -> bool, p: Policy, resource: string, action: string, r: Resource, a: Action)
    ensures ResourceAction(curated, p, resource, action) == Some((r, a)) <==>
              r.id == resource && a.id == action && Offers(curated, p, r, a)
  {
    ResourceExactly(p.resources, resource, r);
    ActionOfExactly(r.actions, action, a);
  }

  // ---------------------------------------------------------------- histories

  /** `worlds[i]` is the state before `acts[i]`. */
  ghost predicate History(worlds: seq<World>, acts: seq<Act>) {
    && |worlds| == |acts| + 1 && worlds[0] == START
    && (forall i :: 0 <= i < |acts| ==> Can(worlds[i], acts[i]) && worlds[i + 1] == Perform(worlds[i], acts[i]))
  }

  lemma HistoryAppend(worlds: seq<World>, acts: seq<Act>, act: Act)
    requires History(worlds, acts) && Can(worlds[|acts|], act)
    ensures History(worlds + [Perform(worlds[|acts|], act)], acts + [act])
  {
    var more, next := acts + [act], worlds + [Perform(worlds[|acts|], act)];
    forall i | 0 <= i < |more|
      ensures Can(next[i], more[i]) && next[i + 1] == Perform(next[i], more[i])
    {
      if i < |acts| {
        assert next[i] == worlds[i] && next[i + 1] == worlds[i + 1] && more[i] == acts[i];
      }
    }
  }

  lemma {:induction false} TablesAreSound(worlds: seq<World>, acts: seq<Act>, i: nat)
    requires History(worlds, acts) && i <= |acts|
    ensures Integrity(worlds[i].tables)
  {
    if i > 0 {
      TablesAreSound(worlds, acts, i - 1);
      assert worlds[i] == Perform(worlds[i - 1], acts[i - 1]);
      if acts[i - 1].Store? {
        TxKeeps(worlds[i - 1].tables, acts[i - 1].tx);
      }
    }
  }

  /** Act `o` exchanged the secret for this session. */
  ghost predicate OpenedAt(worlds: seq<World>, acts: seq<Act>, o: nat, token: Token, s: Session, secret: Secret) {
    && o < |acts| < |worlds| && acts[o].Store? && Opens(worlds[o].tables, acts[o].tx)
    && acts[o].tx.token == token && acts[o].tx.secret == secret
    && s == Session(acts[o].tx.page, acts[o].tx.grant, acts[o].tx.expires)
  }

  /** Act `c` gave a correct code for the session. */
  ghost predicate CodeAt(worlds: seq<World>, acts: seq<Act>, c: nat, token: Token, v: Verification) {
    && c < |acts| < |worlds| && acts[c].Store? && acts[c].tx.Verify? && acts[c].tx.token == token
    && acts[c].tx.page == v.page && acts[c].tx.grant == v.grant
    && VerifyResult(worlds[c].tables, acts[c].tx) == Right(v.expires)
  }

  lemma SessionStep(t: Tables, tx: Tx, token: Token)
    requires Integrity(t) && token in Apply(t, tx).sessions
    ensures token in Apply(t, tx).grantOf
    ensures var s, secret := Apply(t, tx).sessions[token], Apply(t, tx).grantOf[token];
            if token in t.sessions then
              s == t.sessions[token] && token in t.grantOf && secret == t.grantOf[token]
            else
              Opens(t, tx) && tx.token == token && tx.secret == secret && s == Session(tx.page, tx.grant, tx.expires)
  {
    assert TokenOk(t, token);
    TxKeeps(t, tx);
    assert TokenOk(Apply(t, tx), token);
  }

  /** Every session in the tables goes back to the exchange of the secret it records. */
  lemma {:induction false} SessionHasOrigin(worlds: seq<World>, acts: seq<Act>, i: nat, token: Token) returns (o: nat)
    requires History(worlds, acts) && i <= |acts| && token in worlds[i].tables.sessions
    ensures token in worlds[i].tables.grantOf && o < i
    ensures OpenedAt(worlds, acts, o, token, worlds[i].tables.sessions[token], worlds[i].tables.grantOf[token])
  {
    assert i > 0;
    assert worlds[i] == Perform(worlds[i - 1], acts[i - 1]);
    TablesAreSound(worlds, acts, i - 1);
    if acts[i - 1].Store? {
      SessionStep(worlds[i - 1].tables, acts[i - 1].tx, token);
    }
    if token in worlds[i - 1].tables.sessions {
      o := SessionHasOrigin(worlds, acts, i - 1, token);
    } else {
      o := i - 1;
    }
  }

  lemma VerificationStep(t: Tables, tx: Tx, token: Token)
    requires token in Apply(t, tx).verifications
    ensures var v := Apply(t, tx).verifications[token];
            || (token in t.verifications && v == t.verifications[token])
            || (tx.Verify? && tx.token == token && tx.page == v.page && tx.grant == v.grant && VerifyResult(t, tx) == Right(v.expires))
  {
  }

  /** Every verification in the tables goes back to a correct code for that session, and has been
      there ever since. */
  lemma {:induction false} VerificationHasOrigin(worlds: seq<World>, acts: seq<Act>, i: nat, token: Token) returns (c: nat)
    requires History(worlds, acts) && i <= |acts| && token in worlds[i].tables.verifications
    ensures c < i && CodeAt(worlds, acts, c, token, worlds[i].tables.verifications[token])
    ensures forall j :: c < j <= i ==> token in worlds[j].tables.verifications
  {
    assert i > 0;
    assert worlds[i] == Perform(worlds[i - 1], acts[i - 1]);
    if acts[i - 1].Store? {
      VerificationStep(worlds[i - 1].tables, acts[i - 1].tx, token);
    }
    if token in worlds[i - 1].tables.verifications && worlds[i].tables.verifications[token] == worlds[i - 1].tables.verifications[token] {
      c := VerificationHasOrigin(worlds, acts, i - 1, token);
    } else {
      c := i - 1;
    }
  }

  /** A session is not opened while it has a verification, so the session a guest enters with was
      opened before the code that its verification goes back to. */
  lemma EntryBeforeCode(worlds: seq<World>, acts: seq<Act>, i: nat, token: Token, o: nat, s: Session, secret: Secret, c: nat, v: Verification)
    requires History(worlds, acts) && i <= |acts| && o < i
    requires OpenedAt(worlds, acts, o, token, s, secret) && CodeAt(worlds, acts, c, token, v)
    requires forall j :: c < j <= i ==> token in worlds[j].tables.verifications
    ensures o < c
  {
    TablesAreSound(worlds, acts, o);
    assert TokenOk(worlds[o].tables, token);
    assert token !in worlds[o].tables.verifications;
  }

  // ---------------------------------------------------------------- explanations

  /** Which states were looked at: for the session, for the grant, for the time and for the code. */
  datatype Seen = Seen(session: nat, grant: nat, time: nat, code: nat)

  datatype Status = Status(expires: int, ready: bool)

  predicate Within(s: Seen, n: nat) { s.session <= s.grant <= s.time <= s.code < n }

  predicate VerifiedAt(t: Tables, token: Token, page: string, grant: string, until: int) {
    && token in t.verifications && Of(t.verifications[token].page, t.verifications[token].grant, page, grant)
    && until <= t.verifications[token].expires
  }

  /** When the session's verification ends, if there is one now. */
  function LiveVerification(w: World, token: Token, page: string, grant: string): (until: Option<int>)
    ensures until.Some? ==> VerifiedAt(w.tables, token, page, grant, until.value) && until.value > w.now
    ensures until.None? ==> !VerifiedAt(w.tables, token, page, grant, w.now + 1)
  {
    if token !in w.tables.verifications then None
    else
      var v := w.tables.verifications[token];
      if Of(v.page, v.grant, page, grant) && v.expires > w.now then Some(v.expires) else None
  }

  /** The status of a guest from what the four states show. */
  function StatusAt(worlds: seq<World>, s: Seen, guest: Guest): Option<Status>
    requires Within(s, |worlds|)
  {
    var Guest(token, page, grant) := guest;
    var a, g := worlds[s.session], CurrentGrant(worlds[s.grant], page, grant);
    if token == "" || !Live(a.tables, token, page, grant, a.now) || token !in a.tables.grantOf then None
    else if g.None? || g.value.secret != a.tables.grantOf[token] then None
    else
      var expires := Least(a.tables.sessions[token].expires, g.value.expiry);
      if expires <= worlds[s.time].now then None
      else if !g.value.verificationRequired then Some(Status(expires, true))
      else
        var until := LiveVerification(worlds[s.code], token, page, grant);
        Some(if until.Some? then Status(Least(expires, until.value), true) else Status(expires, false))
  }

  /** Who is let in: exactly a guest whose session was live for that page and grant in the first
      state, whose grant, the first of its id, was there and unexpired in the second and still had
      the secret the session was opened with, and neither of which had expired in the third.  It is
      ready exactly if the grant asks for no code or a verification of the session was live in the
      fourth, and it is let in until the first of these expiries. */
  lemma StatusExactly(worlds: seq<World>, s: Seen, guest: Guest, g: GuestGrant)
    requires Within(s, |worlds|) && guest.page in worlds[s.grant].grants
    requires g.id == guest.grant && FirstGrant(worlds[s.grant].grants[guest.page], g)
    ensures var (a, st, now) := (worlds[s.session].tables, StatusAt(worlds, s, guest), worlds[s.time].now);
            var (token, v) := (guest.token, worlds[s.code].tables.verifications);
            && (st.Some? <==>
                  && token != "" && token in a.sessions && token in a.grantOf && a.grantOf[token] == g.secret
                  && a.sessions[token].page == guest.page && a.sessions[token].grant == guest.grant
                  && worlds[s.session].now < a.sessions[token].expires && worlds[s.grant].now < g.expiry
                  && now < a.sessions[token].expires && now < g.expiry)
            && (st.Some? ==>
                  var verified := token in v && v[token].page == guest.page && v[token].grant == guest.grant && worlds[s.code].now < v[token].expires;
                  && (st.value.ready <==> !g.verificationRequired || verified)
                  && st.value.expires <= a.sessions[token].expires && st.value.expires <= g.expiry
                  && (g.verificationRequired && verified ==> st.value.expires <= v[token].expires)
                  && (|| st.value.expires == a.sessions[token].expires || st.value.expires == g.expiry
                      || (g.verificationRequired && verified && st.value.expires == v[token].expires)))
  {
    GrantExactly(worlds[s.grant].grants[guest.page], guest.grant, g);
  }

  /** Nobody is let in on a grant that is not there. */
  lemma NoGrantNoStatus(worlds: seq<World>, s: Seen, guest: Guest)
    requires Within(s, |worlds|)
    requires guest.page in worlds[s.grant].grants ==>
               forall g :: g in worlds[s.grant].grants[guest.page] ==> !(g.id == guest.grant && g.bootstrapFlow)
    ensures StatusAt(worlds, s, guest).None?
  {
  }

  /** The session was live, then the grant it was opened for was current and still had the secret
      of the exchange, and then, if the grant demands it, a verification of the session was live. */
  ghost predicate Backed(worlds: seq<World>, s: Seen, guest: Guest, status: Status) {
    && Within(s, |worlds|)
    && var Guest(token, page, grant) := guest;
    && var t, g := worlds[s.session].tables, CurrentGrant(worlds[s.grant], page, grant);
    && Live(t, token, page, grant, worlds[s.session].now) && token in t.grantOf
    && g.Some? && g.value.secret == t.grantOf[token]
    && status.expires <= t.sessions[token].expires && status.expires <= g.value.expiry
    && (status.ready && g.value.verificationRequired ==> VerifiedAt(worlds[s.code].tables, token, page, grant, status.expires))
  }

  lemma StatusIsBacked(worlds: seq<World>, s: Seen, guest: Guest)
    requires Within(s, |worlds|) && StatusAt(worlds, s, guest).Some?
    ensures Backed(worlds, s, guest, StatusAt(worlds, s, guest).value)
  {
  }

  lemma StatusLater(worlds: seq<World>, worlds': seq<World>, s: Seen, guest: Guest)
    requires worlds <= worlds' && Within(s, |worlds|)
    ensures StatusAt(worlds', s, guest) == StatusAt(worlds, s, guest)
  {
    assert worlds'[s.session] == worlds[s.session] && worlds'[s.grant] == worlds[s.grant];
    assert worlds'[s.time] == worlds[s.time] && worlds'[s.code] == worlds[s.code];
  }

  /** The grant's expiry, for a guest whose session holds in the states `s` and whose grant still
      asks for a code in state `k`. */
  function ContextAt(worlds: seq<World>, s: Seen, k: nat, guest: Guest): Option<int>
    requires Within(s, |worlds|) && k < |worlds|
  {
    var g := CurrentGrant(worlds[k], guest.page, guest.grant);
    if StatusAt(worlds, s, guest).None? || g.None? || !g.value.verificationRequired then None
    else Some(g.value.expiry)
  }

  /** A context is given exactly for a guest that is let in on a grant that still asks for a code,
      and it is that grant's expiry. */
  lemma ContextExactly(worlds: seq<World>, s: Seen, k: nat, guest: Guest, g: GuestGrant)
    requires Within(s, |worlds|) && k < |worlds| && guest.page in worlds[k].grants
    requires g.id == guest.grant && FirstGrant(worlds[k].grants[guest.page], g)
    ensures ContextAt(worlds, s, k, guest) ==
              if StatusAt(worlds, s, guest).Some? && worlds[k].now < g.expiry && g.verificationRequired then Some(g.expiry) else None
  {
    GrantExactly(worlds[k].grants[guest.page], guest.grant, g);
  }

  /** What a guest is told after entering: the earlier of the two expiries the grant had, and, if it
      asks for a code, whether a verification is live, which may end earlier still. */
  ghost predicate Entered(told: Status, first: int, g: GuestGrant, w: World, token: Token, page: string) {
    var v := w.tables.verifications;
    var verified := token in v && v[token].page == page && v[token].grant == g.id && w.now < v[token].expires;
    && (told.ready <==> !g.verificationRequired || verified)
    && told.expires <= first && told.expires <= g.expiry && (g.verificationRequired && verified ==> told.expires <= v[token].expires)
    && (|| told.expires == first || told.expires == g.expiry
        || (g.verificationRequired && verified && told.expires == v[token].expires))
  }

  /** The grant is current and was issued for the secret. */
  predicate Holds(w: World, page: string, grant: string, secret: Secret) {
    CurrentGrant(w, page, grant).Some? && CurrentGrant(w, page, grant).value.secret == secret
  }

  /** The exchange of a grant's invitation in the state `w`. */
  function Exchanging(w: World, g: GuestGrant, page: string, secret: Secret, token: Token): Tx {
    Consume(token, page, g.id, secret, g.secret, g.expiry, g.oneTime, w.now)
  }

  /** How an action ends; only `Done` and `Failed` were sent to Home Assistant. */
  datatype ActionEnd = Denied | Forbidden | RateLimited | NotPermitted | TooFar | Invalid | Expired | Done | Failed

  /** What the outside answers during one action: the limiter, the guest's position under a given
      proximity policy, the validation of the parameters against the entity's live state, and the
      service call itself. */
  datatype Answers = Answers(
    withinRate: bool, near: Proximity -> bool, validate: (Resource, Action, string) -> Option<string>, served: bool)

  /** What a policy and the answers make of a request. */
  datatype Prepared = NotReady(end: ActionEnd) | Prepared(resource: Resource, action: Action, proximity: Proximity, data: string)

  function PreparedFrom(curated: (string, string) -> bool, w: World, page: string, resource: string, action: string, supplied: string,
                        answers: Answers): Prepared
  {
    if page !in w.policies then NotReady(NotPermitted)
    else
      var p, found := w.policies[page].proximity, ResourceAction(curated, w.policies[page], resource, action);
      if found.None? then NotReady(NotPermitted)
      else if p.enabled && !answers.near(p) then NotReady(TooFar)
      else
        var data := answers.validate(found.value.0, found.value.1, supplied);
        if data.None? then NotReady(Invalid) else Prepared(found.value.0, found.value.1, p, data.value)
  }

  /** What looking at the policy again makes of it; `Done` means it is still the same. */
  function Rechecked(curated: (string, string) -> bool, w: World, page: string, r: Resource, a: Action, p: Proximity): ActionEnd {
    if page !in w.policies then NotPermitted
    else
      var found := ResourceAction(curated, w.policies[page], r.id, a.id);
      if found.None? then NotPermitted
      else if found.value != (r, a) || w.policies[page].proximity != p then Denied else Done
  }

  /** Which states one action looked at, from the first status to the call. */
  datatype Trail = Trail(before: Seen, policy: nat, again: nat, after: Seen, call: nat)

  predicate Follows(t: Trail, n: nat) {
    && Within(t.before, n) && Within(t.after, n)
    && t.before.code <= t.policy <= t.again <= t.after.session && t.after.code <= t.call < n
  }

  /** How an action ends, from what those states and the answers show. */
  function ActionResult(curated: (string, string) -> bool, worlds: seq<World>, t: Trail, guest: Guest,
                        resource: string, action: string, supplied: string, answers: Answers): ActionEnd
    requires Follows(t, |worlds|)
  {
    var status := StatusAt(worlds, t.before, guest);
    if status.None? then Denied
    else if !status.value.ready then Forbidden
    else if !answers.withinRate then RateLimited
    else ReadyResult(curated, worlds, t, guest, resource, action, supplied, answers)
  }

  /** The same for a guest that was found ready. */
  function ReadyResult(curated: (string, string) -> bool, worlds: seq<World>, t: Trail, guest: Guest,
                       resource: string, action: string, supplied: string, answers: Answers): ActionEnd
    requires Follows(t, |worlds|)
  {
    var p := PreparedFrom(curated, worlds[t.policy], guest.page, resource, action, supplied, answers);
    if p.NotReady? then p.end
    else FinalResult(curated, worlds, t, guest, p, answers.served)
  }

  function FinalResult(curated: (string, string) -> bool, worlds: seq<World>, t: Trail, guest: Guest,
                       p: Prepared, served: bool): ActionEnd
    requires Follows(t, |worlds|) && p.Prepared?
  {
    var again := Rechecked(curated, worlds[t.again], guest.page, p.resource, p.action, p.proximity);
    if !again.Done? then again
    else
      var status := StatusAt(worlds, t.after, guest);
      if status.None? || !status.value.ready then Denied
      else if status.value.expires <= worlds[t.call].now then Expired
      else if served then Done else Failed
  }

  /** The page's policy offers some action under these ids. */
  ghost predicate Available(curated: (string, string) -> bool, w: World, page: string, resource: string, action: string) {
    page in w.policies && exists r: Resource, a: Action :: r.id == resource && a.id == action && Offers(curated, w.policies[page], r, a)
  }

  lemma AvailableExactly(curated: (string, string) -> bool, w: World, page: string, resource: string, action: string)
    ensures Available(curated, w, page, resource, action) <==>
              page in w.policies && ResourceAction(curated, w.policies[page], resource, action).Some?
  {
    if page in w.policies {
      var found := ResourceAction(curated, w.policies[page], resource, action);
      if found.Some? {
        ActionExactly(curated, w.policies[page], resource, action, found.value.0, found.value.1);
      }
      if Available(curated, w, page, resource, action) {
        var r: Resource, a: Action :| r.id == resource && a.id == action && Offers(curated, w.policies[page], r, a);
        ActionExactly(curated, w.policies[page], resource, action, r, a);
      }
    }
  }

  /** What the first look at the policy, the position and the validation make of a request. */
  lemma PreparedExactly(curated: (string, string) -> bool, w: World, page: string, resource: string, action: string, supplied: string,
                        answers: Answers)
    ensures var p := PreparedFrom(curated, w, page, resource, action, supplied, answers);
            && (p == NotReady(NotPermitted) <==> !Available(curated, w, page, resource, action))
            && (p == NotReady(TooFar) <==>
                  && Available(curated, w, page, resource, action)
                  && w.policies[page].proximity.enabled && !answers.near(w.policies[page].proximity))
            && (p.NotReady? ==> p.end.NotPermitted? || p.end.TooFar? || p.end.Invalid?)
            && (p.Prepared? ==>
                  && page in w.policies && p.resource.id == resource && p.action.id == action
                  && Offers(curated, w.policies[page], p.resource, p.action) && p.proximity == w.policies[page].proximity
                  && answers.validate(p.resource, p.action, supplied) == Some(p.data))
  {
    AvailableExactly(curated, w, page, resource, action);
    if page in w.policies {
      var found := ResourceAction(curated, w.policies[page], resource, action);
      if found.Some? {
        ActionExactly(curated, w.policies[page], resource, action, found.value.0, found.value.1);
      }
    }
  }

  /** What looking at the policy again shows. */
  lemma RecheckedExactly(curated: (string, string) -> bool, w: World, page: string, r: Resource, a: Action, p: Proximity)
    ensures var end := Rechecked(curated, w, page, r, a, p);
            && (end.NotPermitted? <==> !Available(curated, w, page, r.id, a.id))
            && (end.Done? <==> page in w.policies && Offers(curated, w.policies[page], r, a) && w.policies[page].proximity == p)
            && (end.NotPermitted? || end.Done? || end.Denied?)
  {
    AvailableExactly(curated, w, page, r.id, a.id);
    if page in w.policies {
      ActionExactly(curated, w.policies[page], r.id, a.id, r, a);
    }
  }

  /** How a prepared request ends once the policy is looked at again. */
  lemma FinalExactly(curated: (string, string) -> bool, worlds: seq<World>, t: Trail, guest: Guest, p: Prepared, served: bool)
    requires Follows(t, |worlds|) && p.Prepared?
    ensures var (end, w) := (FinalResult(curated, worlds, t, guest, p, served), worlds[t.again]);
            && (end.Done? || end.Failed? <==>
                  && guest.page in w.policies && Offers(curated, w.policies[guest.page], p.resource, p.action)
                  && w.policies[guest.page].proximity == p.proximity
                  && WasReady(worlds, t.after, guest) && worlds[t.call].now < StatusAt(worlds, t.after, guest).value.expires)
            && (end.Done? ==> served) && (end.Failed? ==> !served)
            && (end.NotPermitted? <==> !Available(curated, w, guest.page, p.resource.id, p.action.id))
            && !end.Forbidden? && !end.RateLimited? && !end.TooFar? && !end.Invalid?
  {
    RecheckedExactly(curated, worlds[t.again], guest.page, p.resource, p.action, p.proximity);
  }

  /** When a request is refused as not permitted: exactly if a ready guest within its rate asks for
      what the policy did not offer when it began, or what passed everything else but is offered no
      more.  And what is sent, or refused for any other reason after that, was offered. */
  lemma NotPermittedExactly(curated: (string, string) -> bool, worlds: seq<World>, t: Trail, guest: Guest,
                            resource: string, action: string, supplied: string, answers: Answers)
    requires Follows(t, |worlds|)
    ensures var end := ActionResult(curated, worlds, t, guest, resource, action, supplied, answers);
            var first := Available(curated, worlds[t.policy], guest.page, resource, action);
            var later := Available(curated, worlds[t.again], guest.page, resource, action);
            && (end.NotPermitted? ==> WasReady(worlds, t.before, guest) && answers.withinRate && (!first || !later))
            && (WasReady(worlds, t.before, guest) && answers.withinRate && !first ==> end.NotPermitted?)
            && (end.TooFar? || end.Invalid? ==> first)
            && (end.Expired? || end.Done? || end.Failed? ==> first && later)
  {
    PreparedExactly(curated, worlds[t.policy], guest.page, resource, action, supplied, answers);
    var p := PreparedFrom(curated, worlds[t.policy], guest.page, resource, action, supplied, answers);
    if p.Prepared? {
      FinalExactly(curated, worlds, t, guest, p, answers.served);
    }
  }

  /** When a request never gets to the policy. */
  lemma TurnedAwayExactly(curated: (string, string) -> bool, worlds: seq<World>, t: Trail, guest: Guest,
                          resource: string, action: string, supplied: string, answers: Answers)
    requires Follows(t, |worlds|)
    ensures var (end, status) := (ActionResult(curated, worlds, t, guest, resource, action, supplied, answers), StatusAt(worlds, t.before, guest));
            && (status.None? ==> end.Denied?)
            && (end.Forbidden? <==> status.Some? && !status.value.ready)
            && (end.RateLimited? <==> status.Some? && status.value.ready && !answers.withinRate)
  {
    PreparedExactly(curated, worlds[t.policy], guest.page, resource, action, supplied, answers);
    var p := PreparedFrom(curated, worlds[t.policy], guest.page, resource, action, supplied, answers);
    if p.Prepared? {
      FinalExactly(curated, worlds, t, guest, p, answers.served);
    }
  }

  /** What is sent to Home Assistant: exactly the offered action of a guest who was ready and within
      its rate, was near if the policy asks for it, gave valid parameters, found the same action and
      proximity policy again afterwards, was then still ready, and had not expired at the call. */
  lemma SentExactly(curated: (string, string) -> bool, worlds: seq<World>, t: Trail, guest: Guest,
                    resource: string, action: string, supplied: string, answers: Answers)
    requires Follows(t, |worlds|)
    ensures var end := ActionResult(curated, worlds, t, guest, resource, action, supplied, answers);
            var p := PreparedFrom(curated, worlds[t.policy], guest.page, resource, action, supplied, answers);
            && (end.Done? || end.Failed? <==>
                  && WasReady(worlds, t.before, guest) && answers.withinRate && p.Prepared?
                  && guest.page in worlds[t.again].policies && Offers(curated, worlds[t.again].policies[guest.page], p.resource, p.action)
                  && worlds[t.again].policies[guest.page].proximity == p.proximity
                  && WasReady(worlds, t.after, guest) && worlds[t.call].now < StatusAt(worlds, t.after, guest).value.expires)
            && (end.Done? || end.Failed? ==> (end.Done? <==> answers.served))
  {
    PreparedExactly(curated, worlds[t.policy], guest.page, resource, action, supplied, answers);
    var p := PreparedFrom(curated, worlds[t.policy], guest.page, resource, action, supplied, answers);
    if p.Prepared? {
      FinalExactly(curated, worlds, t, guest, p, answers.served);
    }
  }

  /** The checks behind a dispatch: the status the request began with, and where after it the guest
      was found near, the parameters were validated and the policy was looked at again. */
  datatype Checks = Checks(first: Seen, near: nat, validated: nat, policy: nat)

  /** The guest was ready; after that, for this guest, proximity and parameters were checked for
      exactly the resource, action and proximity policy that were still published when the policy
      was looked at again; and what is sent is what was validated. */
  ghost predicate Checked(curated: (string, string) -> bool, worlds: seq<World>, acts: seq<Act>, c: Checks, d: Act) {
    && d.Dispatch? && c.policy < |worlds| && c.policy <= |acts|
    && Within(c.first, |worlds|) && WasReady(worlds, c.first, d.guest)
    && c.first.code <= c.validated < c.policy
    && acts[c.validated] == Validated(d.guest, d.resource, d.action, d.supplied, d.data)
    && d.guest.page in worlds[c.policy].policies
    && var p := worlds[c.policy].policies[d.guest.page];
    && ResourceAction(curated, p, d.resource.id, d.action.id) == Some((d.resource, d.action))
    && (p.proximity.enabled ==> c.first.code <= c.near < c.validated && acts[c.near] == FoundNear(d.guest, p.proximity))
  }

  predicate WasReady(worlds: seq<World>, s: Seen, guest: Guest)
    requires Within(s, |worlds|)
  {
    StatusAt(worlds, s, guest).Some? && StatusAt(worlds, s, guest).value.ready
  }

  /** Act `n`, a dispatch, happened with all checks behind it, the status read after them, and
      before anything the status rests on had expired. */
  ghost predicate Justified(curated: (string, string) -> bool, worlds: seq<World>, acts: seq<Act>, n: nat, c: Checks, s: Seen, status: Status) {
    && n < |acts| < |worlds| && acts[n].Dispatch?
    && Checked(curated, worlds, acts, c, acts[n]) && c.policy <= s.session && s.code <= n
    && Backed(worlds, s, acts[n].guest, status)
    && status.ready && worlds[n].now < status.expires
  }

  ghost predicate AllJustified(curated: (string, string) -> bool, worlds: seq<World>, acts: seq<Act>) {
    forall n :: 0 <= n < |acts| && acts[n].Dispatch? ==> JustifiedAt(curated, worlds, acts, n)
  }

  /** What a longer history leaves as it was. */
  lemma JustifiedLater(curated: (string, string) -> bool, worlds: seq<World>, acts: seq<Act>, worlds': seq<World>, acts': seq<Act>,
                       n: nat, c: Checks, s: Seen, status: Status)
    requires worlds <= worlds' && acts <= acts' && |acts'| < |worlds'|
    requires Justified(curated, worlds, acts, n, c, s, status)
    ensures Justified(curated, worlds', acts', n, c, s, status)
  {
    assert acts'[n] == acts[n] && worlds'[n] == worlds[n];
    CheckedLater(curated, worlds, acts, worlds', acts', c, acts[n]);
    assert worlds'[s.session] == worlds[s.session] && worlds'[s.grant] == worlds[s.grant] && worlds'[s.code] == worlds[s.code];
  }

  /** Some checks and some status justify act `n`. */
  ghost predicate JustifiedAt(curated: (string, string) -> bool, worlds: seq<World>, acts: seq<Act>, n: nat) {
    exists c, s, status :: Justified(curated, worlds, acts, n, c, s, status)
  }

  lemma JustifiedAtLater(curated: (string, string) -> bool, worlds: seq<World>, acts: seq<Act>, worlds': seq<World>, acts': seq<Act>, n: nat)
    requires worlds <= worlds' && acts <= acts' && |acts'| < |worlds'| && JustifiedAt(curated, worlds, acts, n)
    ensures JustifiedAt(curated, worlds', acts', n)
  {
    var c, s, status :| Justified(curated, worlds, acts, n, c, s, status);
    JustifiedLater(curated, worlds, acts, worlds', acts', n, c, s, status);
  }

  lemma AllJustifiedLater(curated: (string, string) -> bool, worlds: seq<World>, acts: seq<Act>, worlds': seq<World>, acts': seq<Act>)
    requires AllJustified(curated, worlds, acts) && worlds <= worlds' && acts <= acts' && |acts'| < |worlds'|
    ensures forall n :: 0 <= n < |acts| && acts[n].Dispatch? ==> JustifiedAt(curated, worlds', acts', n)
  {
    forall n | 0 <= n < |acts| && acts[n].Dispatch?
      ensures JustifiedAt(curated, worlds', acts', n)
    {
      JustifiedAtLater(curated, worlds, acts, worlds', acts', n);
    }
  }

  lemma AllJustifiedAppend(curated: (string, string) -> bool, worlds: seq<World>, acts: seq<Act>, act: Act, next: World)
    requires AllJustified(curated, worlds, acts) && |worlds| == |acts| + 1
    requires act.Dispatch? ==> JustifiedAt(curated, worlds + [next], acts + [act], |acts|)
    ensures AllJustified(curated, worlds + [next], acts + [act])
  {
    AllJustifiedLater(curated, worlds, acts, worlds + [next], acts + [act]);
    assert forall n :: 0 <= n < |acts| ==> (acts + [act])[n] == acts[n];
  }

  /** A history whose dispatches are all justified.  (The quantifier keeps the definitions folded
      where only the history itself matters.) */
  ghost predicate Recorded(curated: (string, string) -> bool, worlds: seq<World>, acts: seq<Act>) {
    forall ws, done :: ws == worlds && done == acts ==> History(ws, done) && AllJustified(curated, ws, done)
  }

  lemma RecordedAppend(curated: (string, string) -> bool, worlds: seq<World>, acts: seq<Act>, act: Act)
    requires |worlds| == |acts| + 1 && Recorded(curated, worlds, acts) && Can(worlds[|acts|], act) && !act.Dispatch?
    ensures Recorded(curated, worlds + [Perform(worlds[|acts|], act)], acts + [act])
  {
    assert History(worlds, acts);
    HistoryAppend(worlds, acts, act);
    AllJustifiedAppend(curated, worlds, acts, act, Perform(worlds[|acts|], act));
  }

  lemma RecordedDispatch(curated: (string, string) -> bool, worlds: seq<World>, acts: seq<Act>, d: Act, c: Checks, s: Seen, status: Status)
    requires |worlds| == |acts| + 1 && Recorded(curated, worlds, acts) && d.Dispatch?
    requires Checked(curated, worlds, acts, c, d) && c.policy <= s.session && status.ready
    requires Backed(worlds, s, d.guest, status) && worlds[|acts|].now < status.expires
    ensures Recorded(curated, worlds + [Perform(worlds[|acts|], d)], acts + [d])
  {
    assert History(worlds, acts);
    var next := Perform(worlds[|acts|], d);
    CheckedLater(curated, worlds, acts, worlds + [next], acts + [d], c, d);
    BackedLater(worlds, worlds + [next], s, d, status);
    assert Justified(curated, worlds + [next], acts + [d], |acts|, c, s, status);
    HistoryAppend(worlds, acts, d);
    AllJustifiedAppend(curated, worlds, acts, d, next);
  }

  lemma CheckedLater(curated: (string, string) -> bool, worlds: seq<World>, acts: seq<Act>, worlds': seq<World>, acts': seq<Act>,
                     c: Checks, d: Act)
    requires worlds <= worlds' && acts <= acts' && |acts'| < |worlds'| && Checked(curated, worlds, acts, c, d)
    ensures Checked(curated, worlds', acts', c, d)
  {
    StatusLater(worlds, worlds', c.first, d.guest);
    assert acts'[c.validated] == acts[c.validated] && worlds'[c.policy] == worlds[c.policy];
    assert c.near < c.validated ==> acts'[c.near] == acts[c.near];
  }

  lemma BackedLater(worlds: seq<World>, worlds': seq<World>, s: Seen, d: Act, status: Status)
    requires worlds <= worlds' && d.Dispatch? && Backed(worlds, s, d.guest, status)
    ensures Backed(worlds', s, d.guest, status)
  {
    assert worlds'[s.session] == worlds[s.session] && worlds'[s.grant] == worlds[s.grant] && worlds'[s.code] == worlds[s.code];
  }

  /** Everything that had happened before a guest's service call: the secret the grant still had
      at the last look was exchanged for that very session; if the grant demands it, a correct
      code was given for that session after it was opened; then, with the guest ready, the guest
      was found near and these parameters were validated for this guest and for the resource,
      action and proximity policy still published after that; that policy offers the action to
      guests; and the session, the grant and the verification all expire after the call. */
  ghost predicate ExplainedBy(curated: (string, string) -> bool, worlds: seq<World>, acts: seq<Act>, n: nat,
                              entry: nat, code: nat, g: GuestGrant, session: Session, v: Verification, c: Checks) {
    && n < |acts| < |worlds| && acts[n].Dispatch? && entry < n
    && var Guest(token, page, grant) := acts[n].guest;
    && OpenedAt(worlds, acts, entry, token, session, g.secret)
    && session.page == page && session.grant == grant
    && worlds[n].now < session.expires && worlds[n].now < g.expiry
    && (g.verificationRequired ==>
          entry < code < n && CodeAt(worlds, acts, code, token, v) && v.page == page && v.grant == grant && worlds[n].now < v.expires)
    && (exists i :: entry < i <= n && c.policy <= i && CurrentGrant(worlds[i], page, grant) == Some(g))
    && c.policy <= n && Checked(curated, worlds, acts, c, acts[n])
    && Offers(curated, worlds[c.policy].policies[page], acts[n].resource, acts[n].action)
  }

  lemma DispatchIsExplained(curated: (string, string) -> bool, worlds: seq<World>, acts: seq<Act>, n: nat)
    returns (entry: nat, code: nat, g: GuestGrant, session: Session, v: Verification, c: Checks)
    requires History(worlds, acts) && AllJustified(curated, worlds, acts)
    requires n < |acts| && acts[n].Dispatch?
    ensures ExplainedBy(curated, worlds, acts, n, entry, code, g, session, v, c)
  {
    var s, status;
    c, s, status :| Justified(curated, worlds, acts, n, c, s, status);
    entry, code, g, session, v := Explain(curated, worlds, acts, n, c, s, status);
  }

  /** The explanation that one justification yields. */
  lemma Explain(curated: (string, string) -> bool, worlds: seq<World>, acts: seq<Act>, n: nat, c: Checks, s: Seen, status: Status)
    returns (entry: nat, code: nat, g: GuestGrant, session: Session, v: Verification)
    requires History(worlds, acts) && Justified(curated, worlds, acts, n, c, s, status)
    ensures ExplainedBy(curated, worlds, acts, n, entry, code, g, session, v, c)
  {
    var Guest(token, page, grant) := acts[n].guest;
    entry := SessionHasOrigin(worlds, acts, s.session, token);
    session := worlds[s.session].tables.sessions[token];
    g := CurrentGrant(worlds[s.grant], page, grant).value;
    code, v := 0, Verification("", "", 0);
    if g.verificationRequired {
      code := VerificationHasOrigin(worlds, acts, s.code, token);
      v := worlds[s.code].tables.verifications[token];
      EntryBeforeCode(worlds, acts, s.code, token, entry, session, g.secret, code, v);
    }
    assert entry < s.grant <= n && CurrentGrant(worlds[s.grant], page, grant) == Some(g);
    var r, a := acts[n].resource, acts[n].action;
    ActionExactly(curated, worlds[c.policy].policies[page], r.id, a.id, r, a);
  }

  // ---------------------------------------------------------------- guesses

  /** The transactions among the acts from `i` to `j`. */
  function Transactions(acts: seq<Act>, i: nat, j: nat): seq<Tx>
    requires i <= j <= |acts|
    decreases j - i
  {
    if i == j then []
    else (if acts[i].Store? then [acts[i].tx] else []) + Transactions(acts, i + 1, j)
  }

  /** How many wrong codes were evaluated for the session between states `i` and `j`. */
  function WrongGuesses(worlds: seq<World>, acts: seq<Act>, i: nat, j: nat, token: Token): nat
    requires i <= j <= |acts| < |worlds|
    decreases j - i
  {
    if i == j then 0
    else (if acts[i].Store? && Misses(worlds[i].tables, acts[i].tx, token) then 1 else 0) + WrongGuesses(worlds, acts, i + 1, j, token)
  }

  /** No success, cancellation or revocation ends the session's challenge between `i` and `j`. */
  predicate ChallengeStays(worlds: seq<World>, i: nat, j: nat, token: Token)
    requires i <= j < |worlds|
  {
    forall k :: i <= k < j && token in worlds[k].tables.challenges ==> token in worlds[k + 1].tables.challenges
  }

  lemma StepTables(worlds: seq<World>, acts: seq<Act>, i: nat, j: nat)
    requires History(worlds, acts) && i < j <= |acts|
    ensures worlds[i + 1] == Perform(worlds[i], acts[i]) && worlds[i].now <= worlds[i + 1].now
    ensures if acts[i].Store? then
              && Transactions(acts, i, j) == [acts[i].tx] + Transactions(acts, i + 1, j)
              && worlds[i + 1].tables == VerificationTables.Apply(worlds[i].tables, acts[i].tx)
              && (Timed(acts[i].tx) ==> acts[i].tx.now == worlds[i].now)
            else Transactions(acts, i, j) == Transactions(acts, i + 1, j) && worlds[i + 1].tables == worlds[i].tables
  {
    assert Can(worlds[i], acts[i]);
  }

  lemma EarlierBound(txs: seq<Tx>, lo: int, lo': int, hi: int)
    requires InOrder(txs, lo, hi) && lo' <= lo
    ensures InOrder(txs, lo', hi)
    decreases |txs|
  {
    if txs != [] && !Timed(txs[0]) {
      EarlierBound(txs[1..], lo, lo', hi);
    }
  }

  lemma {:induction false} TransactionsInOrder(worlds: seq<World>, acts: seq<Act>, i: nat, j: nat)
    requires History(worlds, acts) && i <= j <= |acts|
    ensures InOrder(Transactions(acts, i, j), worlds[i].now, worlds[j].now) && worlds[i].now <= worlds[j].now
    decreases j - i
  {
    if i < j {
      StepTables(worlds, acts, i, j);
      TransactionsInOrder(worlds, acts, i + 1, j);
      var rest := Transactions(acts, i + 1, j);
      EarlierBound(rest, worlds[i + 1].now, worlds[i].now, worlds[j].now);
      if acts[i].Store? {
        assert ([acts[i].tx] + rest)[1..] == rest;
      }
    }
  }

  lemma {:induction false} GuessesAreTransactions(worlds: seq<World>, acts: seq<Act>, i: nat, j: nat, token: Token)
    requires History(worlds, acts) && i <= j <= |acts|
    ensures WrongGuesses(worlds, acts, i, j, token) == WrongCodes(worlds[i].tables, Transactions(acts, i, j), token)
    ensures ChallengeStays(worlds, i, j, token) ==> Undisturbed(worlds[i].tables, Transactions(acts, i, j), token)
    decreases j - i
  {
    if i < j {
      StepTables(worlds, acts, i, j);
      GuessesAreTransactions(worlds, acts, i + 1, j, token);
      var rest := Transactions(acts, i + 1, j);
      if acts[i].Store? {
        assert ([acts[i].tx] + rest)[0] == acts[i].tx && ([acts[i].tx] + rest)[1..] == rest;
      }
      if ChallengeStays(worlds, i, j, token) {
        assert ChallengeStays(worlds, i + 1, j, token);
      }
    }
  }

  /** In any part of a history in which nothing ends a session's challenge, at most five wrong codes
      are evaluated for every full minute that passes and ten more. */
  lemma HistoryBoundsGuesses(worlds: seq<World>, acts: seq<Act>, i: nat, j: nat, token: Token)
    requires History(worlds, acts) && i <= j <= |acts| && ChallengeStays(worlds, i, j, token)
    ensures WrongGuesses(worlds, acts, i, j, token) <= ATTEMPTS * ((worlds[j].now - worlds[i].now) / RESEND_SECONDS + 2)
  {
    var txs, lo, hi := Transactions(acts, i, j), worlds[i].now, worlds[j].now;
    TablesAreSound(worlds, acts, i);
    TransactionsInOrder(worlds, acts, i, j);
    GuessesAreTransactions(worlds, acts, i, j, token);
    BoundFrom(worlds[i].tables, txs, token, lo, hi - lo);
  }

  // ---------------------------------------------------------------- a guest who gets through

  const VISITOR := Guest("t", "home", "g")
  const LAMP := Resource("lamp", "light.lamp", "light", "Lamp", [Action("on", "turn_on", "On")])
  const HOME := Policy([LAMP], Proximity(true, 100))
  const INVITED := GuestGrant("g", "s", 3600, true, true, true)

  /** A page and a grant are made; the guest enters, is sent a code and gives it, is found near, and
      switches the lamp on. */
  function Visit(): seq<Act> {
    [EditPolicy("home", Some(HOME)), EditGrants("home", Some([INVITED])),
     Store(Consume("t", "home", "g", "s", "s", 3600, true, 0)), Store(Issue("t", "home", "g", false, "id", "111111", 0)),
     Store(Verify("t", "home", "g", "111111", 3600, 0)), FoundNear(VISITOR, HOME.proximity),
     Validated(VISITOR, LAMP, LAMP.actions[0], "{}", "{}"), Dispatch(VISITOR, LAMP, LAMP.actions[0], "{}", "{}")]
  }

  /** The states along that history. */
  function Visited(): seq<World> {
    var w1 := START.(policies := map["home" := HOME]);
    var w2 := w1.(grants := map["home" := [INVITED]]);
    var t3 := EMPTY.(sessions := map["t" := Session("home", "g", 3600)], grantOf := map["t" := "s"], consumed := {"s"});
    var t4 := t3.(challenges := map["t" := Challenge("home", "g", "id", "111111", 600, 0, 0)]);
    var w5 := w2.(tables := t3.(verifications := map["t" := Verification("home", "g", 3600)]));
    [START, w1, w2, w2.(tables := t3), w2.(tables := t4), w5, w5, w5, w5]
  }

  lemma VisitStep(i: nat)
    requires i < 8
    ensures Can(Visited()[i], Visit()[i]) && Visited()[i + 1] == Perform(Visited()[i], Visit()[i])
  {
  }

  lemma VisitHappens()
    ensures History(Visited(), Visit())
  {
    forall i | 0 <= i < 8
      ensures Can(Visited()[i], Visit()[i]) && Visited()[i + 1] == Perform(Visited()[i], Visit()[i])
    {
      VisitStep(i);
    }
  }

  lemma VisitorIsReady(i: nat)
    requires 5 <= i < 9
    ensures StatusAt(Visited(), Seen(i, i, i, i), VISITOR) == Some(Status(3600, true))
  {
    GrantExactly([INVITED], "g", INVITED);
  }

  lemma LampIsOffered(curated: (string, string) -> bool)
    requires curated("light", "turn_on")
    ensures ResourceAction(curated, HOME, "lamp", "on") == Some((LAMP, LAMP.actions[0]))
  {
    assert FindResource(HOME.resources, "lamp") == Some(LAMP) && FindAction(LAMP.actions, "on") == Some(LAMP.actions[0]);
  }

  lemma VisitIsChecked(curated: (string, string) -> bool)
    requires curated("light", "turn_on")
    ensures Checked(curated, Visited(), Visit(), Checks(Seen(5, 5, 5, 5), 5, 6, 7), Visit()[7])
  {
    VisitorIsReady(5);
    LampIsOffered(curated);
  }

  lemma VisitIsBacked()
    ensures Backed(Visited(), Seen(7, 7, 7, 7), VISITOR, Status(3600, true)) && Visited()[7].now == 0
  {
    VisitorIsReady(7);
    StatusIsBacked(Visited(), Seen(7, 7, 7, 7), VISITOR);
  }

  lemma OnlyTheLastIsADispatch(n: nat)
    requires n < 8
    ensures Visit()[n].Dispatch? <==> n == 7
  {
  }

  /** Such a service call is possible: that visit's is justified, by checks made for it. */
  lemma VisitIsJustified(curated: (string, string) -> bool)
    requires curated("light", "turn_on")
    ensures History(Visited(), Visit()) && AllJustified(curated, Visited(), Visit()) && Visit()[7].Dispatch?
  {
    VisitHappens();
    VisitIsChecked(curated);
    VisitIsBacked();
    OnlyTheLastIsADispatch(7);
    assert Visit()[7].guest == VISITOR;
    assert Justified(curated, Visited(), Visit(), 7, Checks(Seen(5, 5, 5, 5), 5, 6, 7), Seen(7, 7, 7, 7), Status(3600, true));
    forall n | 0 <= n < 8 && Visit()[n].Dispatch?
      ensures JustifiedAt(curated, Visited(), Visit(), n)
    {
      OnlyTheLastIsADispatch(n);
    }
  }
}
